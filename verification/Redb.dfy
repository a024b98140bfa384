/** The durable store: one ordered table from 24-byte keys to encoded frames, and the proof
    that it behaves as the per-room vectors do. */
module Redb {
  import opened BigEndian
  import opened Results
  import opened Wire
  import opened Storage

  type Entry = (seq<Byte>, seq<Byte>)

  // ---- keys ----

  function Key(room: U128, index: U64): (k: seq<Byte>)
    ensures |k| == 24
  {
    Be128(room) + Be64(index)
  }

  function DecodeKey(k: seq<Byte>): (U128, U64)
    requires |k| == 24
  {
    (U128At(k, 0), U64At(k, 16))
  }

  lemma KeyRoundTrip(room: U128, index: U64)
    ensures DecodeKey(Key(room, index)) == (room, index)
  {
    var k := Key(room, index);
    assert k[0..16] == Be128(room) && k[16..24] == Be64(index);
  }

  lemma KeyValue(room: U128, index: U64)
    ensures Value(Key(room, index)) == room * (U64_MAX + 1) + index
  {
    ValueConcat(Be128(room), Be64(index));
    Widths();
  }

  /** Byte order of keys is the order of (room, index): rooms are contiguous, indices ascend. */
  lemma KeyOrder(room: U128, i: U64, other: U128, j: U64)
    ensures LexLess(Key(room, i), Key(other, j)) <==> room < other || (room == other && i < j)
  {
    LexIsNumeric(Key(room, i), Key(other, j));
    KeyValue(room, i);
    KeyValue(other, j);
  }

  // ---- the ordered table ----

  predicate Sorted(t: seq<Entry>) {
    && (forall i | 0 <= i < |t| :: |t[i].0| == 24)
    && (forall i, j | 0 <= i < j < |t| :: LexLess(t[i].0, t[j].0))
  }

  function Insert(t: seq<Entry>, k: seq<Byte>, v: seq<Byte>): seq<Entry> {
    if t == [] then [(k, v)]
    else if LexLess(k, t[0].0) then [(k, v)] + t
    else if k == t[0].0 then [(k, v)] + t[1..]
    else [t[0]] + Insert(t[1..], k, v)
  }

  predicate InRange(k: seq<Byte>, lo: seq<Byte>, hi: seq<Byte>) { !LexLess(k, lo) && !LexLess(hi, k) }

  /** The entries from `lo` to `hi`, both included, in key order. */
  function Range(t: seq<Entry>, lo: seq<Byte>, hi: seq<Byte>): seq<Entry> {
    if t == [] then []
    else (if InRange(t[0].0, lo, hi) then [t[0]] else []) + Range(t[1..], lo, hi)
  }

  lemma LexAntisymmetric(x: seq<Byte>, y: seq<Byte>)
    requires |x| == |y|
    ensures !(LexLess(x, y) && LexLess(y, x)) && (!LexLess(x, y) && !LexLess(y, x) ==> x == y)
  {
    LexIsNumeric(x, y);
    LexIsNumeric(y, x);
    if Value(x) == Value(y) {
      ValueInjective(x, y);
    }
  }

  lemma LexTransitive(x: seq<Byte>, y: seq<Byte>, z: seq<Byte>)
    requires |x| == |y| == |z| && LexLess(x, y) && LexLess(y, z)
    ensures LexLess(x, z)
  {
    LexIsNumeric(x, y);
    LexIsNumeric(y, z);
    LexIsNumeric(x, z);
  }

  lemma {:induction false} RangeElements(t: seq<Entry>, lo: seq<Byte>, hi: seq<Byte>, e: Entry)
    ensures e in Range(t, lo, hi) <==> e in t && InRange(e.0, lo, hi)
  {
    hide InRange;
    if t != [] {
      RangeElements(t[1..], lo, hi, e);
      assert e in t <==> e == t[0] || e in t[1..];
    }
  }

  lemma {:induction false} RangeSorted(t: seq<Entry>, lo: seq<Byte>, hi: seq<Byte>)
    requires Sorted(t)
    ensures Sorted(Range(t, lo, hi))
  {
    hide InRange, LexLess;
    if t != [] {
      var rest := Range(t[1..], lo, hi);
      RangeSorted(t[1..], lo, hi);
      forall i | 0 <= i < |rest| ensures LexLess(t[0].0, rest[i].0) {
        RangeElements(t[1..], lo, hi, rest[i]);
      }
    }
  }

  lemma {:induction false} InsertElements(t: seq<Entry>, k: seq<Byte>, v: seq<Byte>, e: Entry)
    ensures e in Insert(t, k, v) ==> e in t || e == (k, v)
    ensures (forall x | x in t :: x.0 != k) ==> (e in Insert(t, k, v) <==> e in t || e == (k, v))
  {
    hide LexLess;
    if t != [] {
      assert t[0] in t;
      assert e in t <==> e == t[0] || e in t[1..];
      forall x | x in t[1..] ensures x in t {}
      InsertElements(t[1..], k, v, e);
    }
  }

  lemma {:induction false} InsertSorted(t: seq<Entry>, k: seq<Byte>, v: seq<Byte>)
    requires Sorted(t) && |k| == 24
    ensures Sorted(Insert(t, k, v))
  {
    hide LexLess;
    if t == [] {
    } else if LexLess(k, t[0].0) {
      forall j | 0 < j < |t| ensures LexLess(k, t[j].0) {
        LexTransitive(k, t[0].0, t[j].0);
      }
    } else if k != t[0].0 {
      LexAntisymmetric(k, t[0].0);
      InsertSorted(t[1..], k, v);
      var rest := Insert(t[1..], k, v);
      forall i | 0 <= i < |rest| ensures LexLess(t[0].0, rest[i].0) {
        InsertElements(t[1..], k, v, rest[i]);
      }
    }
  }

  /** An ordered table is determined by the entries it holds. */
  lemma {:induction false} SortedUnique(s: seq<Entry>, t: seq<Entry>)
    requires Sorted(s) && Sorted(t)
    requires forall e :: e in s <==> e in t
    ensures s == t
  {
    hide LexLess;
    assert t != [] ==> t[0] in t;
    if s != [] {
      assert s[0] in t;
      assert t[0] in s;
      var j :| 0 <= j < |t| && t[j] == s[0];
      var i :| 0 <= i < |s| && s[i] == t[0];
      LexAntisymmetric(s[0].0, t[0].0);
      assert s[0] == t[0];
      SortedTail(s);
      SortedTail(t);
      SortedUnique(s[1..], t[1..]);
    }
  }

  lemma SortedTail(s: seq<Entry>)
    requires Sorted(s) && s != []
    ensures forall e :: e in s[1..] <==> e in s && e != s[0]
  {
    hide LexLess;
    forall i | 0 < i < |s| ensures s[i] != s[0] {
      LexAntisymmetric(s[0].0, s[i].0);
    }
  }

  // ---- storage operations ----

  function RoomRange(t: seq<Entry>, room: U128, from: U64): seq<Entry> {
    Range(t, Key(room, from), Key(room, U64_MAX))
  }

  function Latest(t: seq<Entry>, room: U128): Option<nat>
    requires Sorted(t)
  {
    RangeSorted(t, Key(room, 0), Key(room, U64_MAX));
    var entries := RoomRange(t, room, 0);
    if entries == [] then None else Some(DecodeKey(entries[|entries| - 1].0).1)
  }

  function Next(t: seq<Entry>, room: U128): nat
    requires Sorted(t)
  {
    var latest := Latest(t, room);
    if latest.None? then 0 else latest.value + 1
  }

  function Write(t: seq<Entry>, room: U128, index: U64, f: Frame): (r: (seq<Entry>, Result<(), StorageError>))
    requires Sorted(t)
    ensures Sorted(r.0)
  {
    if index != Next(t, room) then (t, Err(Conflict(Next(t, room), index)))
    else
      match Encode(f)
      case Err(e) => (t, Err(Serialization(e)))
      case Ok(bytes) => InsertSorted(t, Key(room, index), bytes); (Insert(t, Key(room, index), bytes), Ok(()))
  }

  /** The load loop: stops at the limit, at a foreign key, or with an error at bytes that do
      not decode. */
  function Collect(entries: seq<Entry>, i: nat, room: U128, limit: nat): Result<seq<Frame>, StorageError>
    requires i <= |entries| && forall k | 0 <= k < |entries| :: |entries[k].0| == 24
    decreases |entries| - i
  {
    if limit == 0 || i == |entries| || DecodeKey(entries[i].0).0 != room then Ok([])
    else
      match Decode(entries[i].1)
      case Err(e) => Err(Serialization(e))
      case Ok(f) => Prepend([f], Collect(entries, i + 1, room, limit - 1))
  }

  function Prepend(fs: seq<Frame>, r: Result<seq<Frame>, StorageError>): Result<seq<Frame>, StorageError> {
    if r.Err? then r else Ok(fs + r.value)
  }

  function Load(t: seq<Entry>, room: U128, from: U64, limit: nat): Result<seq<Frame>, StorageError>
    requires Sorted(t)
  {
    RangeSorted(t, Key(room, from), Key(room, U64_MAX));
    Collect(RoomRange(t, room, from), 0, room, limit)
  }

  class RedbStorage {
    var table: seq<Entry>

    constructor ()
      ensures table == []
    {
      table := [];
    }

    /** Scans the room's keys; the last one read is the latest index. */
    method LatestLogIndex(room: U128) returns (latest: Option<nat>)
      requires Sorted(table)
      ensures latest == Latest(table, room)
    {
      RangeSorted(table, Key(room, 0), Key(room, U64_MAX));
      var entries := RoomRange(table, room, 0);
      latest := None;
      for i := 0 to |entries|
        invariant latest == if i == 0 then None else Some(DecodeKey(entries[i - 1].0).1)
      {
        latest := Some(DecodeKey(entries[i].0).1);
      }
    }

    method StoreFrame(room: U128, index: U64, f: Frame) returns (r: Result<(), StorageError>)
      requires Sorted(table)
      modifies this
      ensures (table, r) == Write(old(table), room, index, f)
    {
      var latest := LatestLogIndex(room);
      var expected := if latest.None? then 0 else latest.value + 1;
      if index != expected {
        return Err(Conflict(expected, index));
      }
      var buffer := new ByteBuffer();
      var encoded := EncodeInto(f, buffer);
      if encoded.Err? {
        return Err(Serialization(encoded.error));
      }
      assert buffer.bytes == WireBytes(f);
      table := Insert(table, Key(room, index), buffer.bytes);
      return Ok(());
    }

    method LoadFrames(room: U128, from: U64, limit: nat) returns (r: Result<seq<Frame>, StorageError>)
      requires Sorted(table)
      ensures r == Load(table, room, from, limit)
    {
      RangeSorted(table, Key(room, from), Key(room, U64_MAX));
      r := CollectFrames(RoomRange(table, room, from), room, limit);
    }
  }

  method CollectFrames(entries: seq<Entry>, room: U128, limit: nat) returns (r: Result<seq<Frame>, StorageError>)
    requires forall k | 0 <= k < |entries| :: |entries[k].0| == 24
    ensures r == Collect(entries, 0, room, limit)
  {
    hide DecodeKey, Decode, Prepend;
    var frames: seq<Frame> := [];
    PrependNothing(Collect(entries, 0, room, limit));
    var i := 0;
    while i < |entries|
      invariant 0 <= i <= |entries| && |frames| == i <= limit
      invariant Collect(entries, 0, room, limit) == Prepend(frames, Collect(entries, i, room, limit - i))
    {
      if |frames| >= limit {
        break;
      }
      if DecodeKey(entries[i].0).0 != room {
        break;
      }
      match Decode(entries[i].1) {
        case Err(e) =>
          PrependError(frames, Serialization(e));
          return Err(Serialization(e));
        case Ok(f) =>
          PrependPrepend(frames, f, Collect(entries, i + 1, room, limit - i - 1));
          frames := frames + [f];
      }
      i := i + 1;
    }
    PrependEnd(frames);
    return Ok(frames);
  }

  lemma PrependNothing(r: Result<seq<Frame>, StorageError>)
    ensures Prepend([], r) == r
  {
    if r.Ok? {
      assert [] + r.value == r.value;
    }
  }

  lemma PrependError(fs: seq<Frame>, e: StorageError)
    ensures Prepend(fs, Err(e)) == Err(e)
  {
  }

  lemma PrependEnd(fs: seq<Frame>)
    ensures Prepend(fs, Ok([])) == Ok(fs)
  {
    assert fs + [] == fs;
  }

  lemma PrependPrepend(fs: seq<Frame>, f: Frame, r: Result<seq<Frame>, StorageError>)
    ensures Prepend(fs, Prepend([f], r)) == Prepend(fs + [f], r)
  {
    if r.Ok? {
      assert fs + ([f] + r.value) == fs + [f] + r.value;
    }
  }

  // ---- refinement ----

  /** The entry a vector's position is stored under. */
  function EntryAt(log: seq<Frame>, room: U128, i: nat): Entry
    requires i < |log| <= U64_MAX
  {
    (Key(room, i), WireBytes(log[i]))
  }

  predicate Holds(e: Entry, s: Store) {
    |e.0| == 24 &&
    var (room, i) := DecodeKey(e.0);
    i < |Log(s, room)| <= U64_MAX && e == EntryAt(Log(s, room), room, i)
  }

  /** The table holds exactly the encodings of the vectors' frames under their keys. */
  ghost predicate Represents(t: seq<Entry>, s: Store) {
    && Sorted(t)
    && (forall e | e in t :: Holds(e, s))
    && (forall room: U128 :: |Log(s, room)| <= U64_MAX)
    && (forall room: U128, i | 0 <= i < |Log(s, room)| :: EntryAt(Log(s, room), room, i) in t)
    && (forall room: U128, i | 0 <= i < |Log(s, room)| :: Encodable(Log(s, room)[i]))
  }

  lemma RoomFacts(t: seq<Entry>, s: Store, room: U128)
    requires Represents(t, s)
    ensures Sorted(t) && |Log(s, room)| <= U64_MAX
    ensures forall i | 0 <= i < |Log(s, room)| :: Encodable(Log(s, room)[i])
  {
  }

  function Entries(log: seq<Frame>, room: U128, from: nat): (es: seq<Entry>)
    requires |log| <= U64_MAX
    ensures |es| == if from <= |log| then |log| - from else 0
    ensures forall j | 0 <= j < |es| :: es[j] == EntryAt(log, room, from + j)
  {
    if from >= |log| then []
    else seq(|log| - from, j requires 0 <= j < |log| - from => EntryAt(log, room, from + j))
  }

  lemma EntriesSorted(log: seq<Frame>, room: U128, from: nat)
    requires |log| <= U64_MAX
    ensures Sorted(Entries(log, room, from))
  {
    hide LexLess, Key;
    var es := Entries(log, room, from);
    forall i, j | 0 <= i < j < |es| ensures LexLess(es[i].0, es[j].0) {
      KeyOrder(room, from + i, room, from + j);
    }
  }

  /** Scanning a room's keys from an index gives its frames from that index on, in order. */
  lemma RoomRangeIsSuffix(t: seq<Entry>, s: Store, room: U128, from: U64)
    requires Represents(t, s)
    ensures RoomRange(t, room, from) == Entries(Log(s, room), room, from)
  {
    var es, want := RoomRange(t, room, from), Entries(Log(s, room), room, from);
    RangeSorted(t, Key(room, from), Key(room, U64_MAX));
    EntriesSorted(Log(s, room), room, from);
    forall e ensures e in es <==> e in want {
      RangeElements(t, Key(room, from), Key(room, U64_MAX), e);
      EntryInRange(t, s, room, from, e);
    }
    SortedUnique(es, want);
  }

  lemma EntryInRange(t: seq<Entry>, s: Store, room: U128, from: U64, e: Entry)
    requires Represents(t, s)
    ensures e in t && InRange(e.0, Key(room, from), Key(room, U64_MAX)) <==> e in Entries(Log(s, room), room, from)
  {
    if e in t && InRange(e.0, Key(room, from), Key(room, U64_MAX)) {
      ScannedEntry(t, s, room, from, e);
    }
    if e in Entries(Log(s, room), room, from) {
      ListedEntry(t, s, room, from, e);
    }
  }

  lemma ScannedEntry(t: seq<Entry>, s: Store, room: U128, from: U64, e: Entry)
    requires Represents(t, s) && e in t && InRange(e.0, Key(room, from), Key(room, U64_MAX))
    ensures e in Entries(Log(s, room), room, from)
  {
    hide LexLess, Key, DecodeKey, Sorted, WireBytes, Log;
    assert Holds(e, s);
    var (r, i) := DecodeKey(e.0);
    KeyOrder(r, i, room, from);
    KeyOrder(room, U64_MAX, r, i);
    assert Entries(Log(s, room), room, from)[i - from] == e;
  }

  lemma ListedEntry(t: seq<Entry>, s: Store, room: U128, from: U64, e: Entry)
    requires Represents(t, s) && e in Entries(Log(s, room), room, from)
    ensures e in t && InRange(e.0, Key(room, from), Key(room, U64_MAX))
  {
    hide LexLess, Key, Sorted, WireBytes, Log, Entries;
    var want := Entries(Log(s, room), room, from);
    var j :| 0 <= j < |want| && want[j] == e;
    assert e == EntryAt(Log(s, room), room, from + j);
    KeyOrder(room, from + j, room, from);
    KeyOrder(room, U64_MAX, room, from + j);
  }

  lemma LatestAgrees(t: seq<Entry>, s: Store, room: U128)
    requires Represents(t, s)
    ensures |Log(s, room)| <= U64_MAX
    ensures Latest(t, room) == LatestIndex(s, room) && Next(t, room) == |Log(s, room)|
  {
    hide Represents, RoomRange, Key, WireBytes, DecodeKey, Sorted, Encodable;
    RoomFacts(t, s, room);
    RoomRangeIsSuffix(t, s, room, 0);
    var log := Log(s, room);
    if log != [] {
      KeyRoundTrip(room, |log| - 1);
    }
  }

  /** On storing, the two disagree exactly for a frame at the right index whose payload is
      over the wire limit: the vector takes it, the table cannot. */
  lemma StoreVerdictsAgreeIff(t: seq<Entry>, s: Store, room: U128, index: U64, f: Frame)
    requires Represents(t, s)
    ensures Write(t, room, index, f).1 == AfterStore(s, room, index, f).1
       <==> index != |Log(s, room)| || |f.payload| <= MAX_PAYLOAD_SIZE
  {
    LatestAgrees(t, s, room);
  }

  lemma StoreRepresents(t: seq<Entry>, s: Store, room: U128, index: U64, f: Frame)
    requires Represents(t, s) && Encodable(f) && index < U64_MAX
    ensures Represents(Write(t, room, index, f).0, AfterStore(s, room, index, f).0)
  {
    LatestAgrees(t, s, room);
    var log, s' := Log(s, room), AfterStore(s, room, index, f).0;
    if index == |log| {
      InsertSorted(t, Key(room, index), WireBytes(f));
      InsertRepresents(t, s, room, f);
    } else {
      assert forall r: U128 :: Log(s', r) == Log(s, r);
    }
  }

  lemma NewKey(t: seq<Entry>, s: Store, room: U128)
    requires Represents(t, s) && |Log(s, room)| < U64_MAX
    ensures forall x | x in t :: x.0 != Key(room, |Log(s, room)|)
  {
    hide Key, DecodeKey, Sorted;
    forall x | x in t ensures x.0 != Key(room, |Log(s, room)|) {
      assert Holds(x, s);
      KeyRoundTrip(room, |Log(s, room)|);
    }
  }

  lemma InsertRepresents(t: seq<Entry>, s: Store, room: U128, f: Frame)
    requires Represents(t, s) && Encodable(f) && |Log(s, room)| < U64_MAX
    requires Sorted(Insert(t, Key(room, |Log(s, room)|), WireBytes(f)))
    ensures Represents(Insert(t, Key(room, |Log(s, room)|), WireBytes(f)), AfterStore(s, room, |Log(s, room)|, f).0)
  {
    hide Key, DecodeKey, Sorted, Encodable, Insert, WireBytes;
    var n := |Log(s, room)|;
    var e, s' := (Key(room, n), WireBytes(f)), AfterStore(s, room, n, f).0;
    var t' := Insert(t, e.0, e.1);
    KeyRoundTrip(room, n);
    NewKey(t, s, room);
    forall x ensures x in t' <==> x in t || x == e {
      InsertElements(t, e.0, e.1, x);
    }
    forall x | x in t' ensures Holds(x, s') {
      if x in t {
        assert Holds(x, s);
      }
    }
    forall r: U128, i | 0 <= i < |Log(s', r)|
      ensures EntryAt(Log(s', r), r, i) in t' && Encodable(Log(s', r)[i])
    {
      if r != room || i < n {
        assert EntryAt(Log(s', r), r, i) == EntryAt(Log(s, r), r, i);
      }
    }
  }

  lemma {:induction false} CollectEntries(log: seq<Frame>, room: U128, from: nat, i: nat, limit: nat)
    requires |log| <= U64_MAX && i <= |Entries(log, room, from)|
    requires forall k | 0 <= k < |log| :: Encodable(log[k])
    ensures Collect(Entries(log, room, from), i, room, limit) == Ok(Page(log, from + i, limit))
    decreases limit
  {
    hide Key, DecodeKey, Encodable, WireBytes, Decode, Page, Entries;
    var es, at := Entries(log, room, from), from + i;
    PageStep(log, at, limit);
    if limit > 0 && at < |log| {
      assert es[i] == EntryAt(log, room, at);
      KeyRoundTrip(room, at);
      DecodeEncode(log[at], []);
      assert WireBytes(log[at]) + [] == WireBytes(log[at]);
      CollectEntries(log, room, from, i + 1, limit - 1);
    }
  }

  lemma PageStep(log: seq<Frame>, at: nat, limit: nat)
    ensures Page(log, at, limit)
         == if limit > 0 && at < |log| then [log[at]] + Page(log, at + 1, limit - 1) else []
  {
  }

  lemma LoadIsPage(t: seq<Entry>, s: Store, room: U128, from: U64, limit: nat)
    requires Represents(t, s)
    ensures Sorted(t)
    ensures Load(t, room, from, limit) == Ok(Page(Log(s, room), from, limit))
  {
    hide Represents, Encodable, Key, RoomRange, Sorted, WireBytes, Decode, Entries, Page, Log;
    RoomFacts(t, s, room);
    RoomRangeIsSuffix(t, s, room, from);
    CollectEntries(Log(s, room), room, from, 0, limit);
  }

  /** On loading, the two agree exactly for the rooms the vector store has ever been asked to
      write; for any other room the vector store reports it missing, the table an empty page. */
  lemma LoadsAgreeIff(t: seq<Entry>, s: Store, room: U128, from: U64, limit: nat)
    requires Represents(t, s)
    ensures Load(t, room, from, limit) == Storage.Loaded(s, room, from, limit) <==> room in s.frames
    ensures room !in s.frames ==>
              && Load(t, room, from, limit) == Ok([])
              && Storage.Loaded(s, room, from, limit) == Err(NotFound(room, from))
  {
    hide Represents, Load;
    LoadIsPage(t, s, room, from, limit);
  }

  // ---- whole sequences of operations ----

  datatype Op = StoreOp(room: U128, index: U64, frame: Frame) | LatestOp(room: U128) | LoadOp(room: U128, from: U64, limit: nat)

  datatype Answer =
    | Stored(verdict: Result<(), StorageError>)
    | LatestIs(index: Option<nat>)
    | Loaded(page: Result<seq<Frame>, StorageError>)

  function MemoryAnswers(s: Store, ops: seq<Op>): seq<Answer>
    decreases |ops|
  {
    if ops == [] then []
    else match ops[0]
         case StoreOp(room, index, f) =>
           [Stored(AfterStore(s, room, index, f).1)] + MemoryAnswers(AfterStore(s, room, index, f).0, ops[1..])
         case LatestOp(room) => [LatestIs(LatestIndex(s, room))] + MemoryAnswers(s, ops[1..])
         case LoadOp(room, from, limit) => [Loaded(Storage.Loaded(s, room, from, limit))] + MemoryAnswers(s, ops[1..])
  }

  function RedbAnswers(t: seq<Entry>, ops: seq<Op>): seq<Answer>
    requires Sorted(t)
    decreases |ops|
  {
    if ops == [] then []
    else match ops[0]
         case StoreOp(room, index, f) =>
           var (t', verdict) := Write(t, room, index, f);
           [Stored(verdict)] + RedbAnswers(t', ops[1..])
         case LatestOp(room) => [LatestIs(Latest(t, room))] + RedbAnswers(t, ops[1..])
         case LoadOp(room, from, limit) => [Loaded(Load(t, room, from, limit))] + RedbAnswers(t, ops[1..])
  }

  predicate WithinLimits(ops: seq<Op>) {
    forall op | op in ops && op.StoreOp? :: Encodable(op.frame) && op.index < U64_MAX
  }

  /** The table answers as the vectors do, but for a page of a room never written. */
  predicate SameAnswer(op: Op, memory: Answer, redb: Answer) {
    || memory == redb
    || (op.LoadOp? && memory == Loaded(Err(NotFound(op.room, op.from))) && redb == Loaded(Ok([])))
  }

  predicate SameAnswers(ops: seq<Op>, memory: seq<Answer>, redb: seq<Answer>) {
    |memory| == |redb| == |ops| && forall i | 0 <= i < |ops| :: SameAnswer(ops[i], memory[i], redb[i])
  }

  lemma SameAnswersCons(ops: seq<Op>, a: Answer, memory: seq<Answer>, b: Answer, redb: seq<Answer>)
    requires ops != [] && SameAnswer(ops[0], a, b) && SameAnswers(ops[1..], memory, redb)
    ensures SameAnswers(ops, [a] + memory, [b] + redb)
  {
    hide SameAnswer;
    forall i | 0 <= i < |ops| ensures SameAnswer(ops[i], ([a] + memory)[i], ([b] + redb)[i]) {
      assert i == 0 || ops[i] == ops[1..][i - 1];
    }
  }

  /** Any sequence of operations on well-formed frames gives the same store verdicts, the same
      latest indices and the same pages from the table as from the vectors it represents. */
  lemma {:induction false} RedbRefinesMemory(t: seq<Entry>, s: Store, ops: seq<Op>)
    requires Represents(t, s) && WithinLimits(ops)
    ensures SameAnswers(ops, MemoryAnswers(s, ops), RedbAnswers(t, ops))
    decreases |ops|
  {
    assert Sorted(t);
    hide Represents, Encodable, SameAnswer, SameAnswers, Write, Load, Latest, AfterStore, Storage.Loaded, LatestIndex;
    if ops != [] {
      var op := ops[0];
      assert op in ops;
      forall o | o in ops[1..] ensures o in ops {}
      FirstAnswers(t, s, op);
      match op
      case StoreOp(room, index, f) =>
        var (t', r) := Write(t, room, index, f);
        var (s', m) := AfterStore(s, room, index, f);
        RedbRefinesMemory(t', s', ops[1..]);
        SameAnswersCons(ops, Stored(m), MemoryAnswers(s', ops[1..]), Stored(r), RedbAnswers(t', ops[1..]));
      case LatestOp(room) =>
        RedbRefinesMemory(t, s, ops[1..]);
        SameAnswersCons(ops, LatestIs(LatestIndex(s, room)), MemoryAnswers(s, ops[1..]),
                        LatestIs(Latest(t, room)), RedbAnswers(t, ops[1..]));
      case LoadOp(room, from, limit) =>
        RedbRefinesMemory(t, s, ops[1..]);
        SameAnswersCons(ops, Loaded(Storage.Loaded(s, room, from, limit)), MemoryAnswers(s, ops[1..]),
                        Loaded(Load(t, room, from, limit)), RedbAnswers(t, ops[1..]));
    }
  }

  lemma FirstAnswers(t: seq<Entry>, s: Store, op: Op)
    requires Represents(t, s)
    requires op.StoreOp? ==> Encodable(op.frame) && op.index < U64_MAX
    ensures op.StoreOp? ==>
              && Represents(Write(t, op.room, op.index, op.frame).0, AfterStore(s, op.room, op.index, op.frame).0)
              && SameAnswer(op, Stored(AfterStore(s, op.room, op.index, op.frame).1),
                            Stored(Write(t, op.room, op.index, op.frame).1))
    ensures op.LatestOp? ==> SameAnswer(op, LatestIs(LatestIndex(s, op.room)), LatestIs(Latest(t, op.room)))
    ensures op.LoadOp? ==> SameAnswer(op, Loaded(Storage.Loaded(s, op.room, op.from, op.limit)),
                                      Loaded(Load(t, op.room, op.from, op.limit)))
  {
    match op
    case StoreOp(room, index, f) =>
      StoreRepresents(t, s, room, index, f);
      StoreVerdictsAgreeIff(t, s, room, index, f);
    case LatestOp(room) => LatestAgrees(t, s, room);
    case LoadOp(room, from, limit) => LoadsAgreeIff(t, s, room, from, limit);
  }
}
