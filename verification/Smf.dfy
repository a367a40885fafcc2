/**
 The byte layer of `tokens_to_midi_bytes` (Standard MIDI Files 1.0, format 0) and a reader for it.

 The reader is written from the standard, not from the writer: variable-length quantities as in
 its "Conventions" section, chunk lengths as in "Header Chunks" and "Track Chunks". `ReadsBack` says
 the two agree on every ordered event list.
 */
module Smf {
  import opened Options

  type byte = b: int | 0 <= b < 256

  /** The channel messages the writer emits. */
  datatype Msg =
    | NoteOff(ch: int, note: int, vel: int)
    | NoteOn(ch: int, note: int, vel: int)
    | Program(ch: int, program: int)

  /** A message at an absolute tick. */
  datatype Timed = Timed(tick: nat, msg: Msg)

  predicate ValidMsg(m: Msg) {
    match m
    case NoteOff(ch, note, vel) => 0 <= ch < 16 && 0 <= note < 128 && 0 <= vel < 128
    case NoteOn(ch, note, vel) => 0 <= ch < 16 && 0 <= note < 128 && 0 <= vel < 128
    case Program(ch, program) => 0 <= ch < 16 && 0 <= program < 128
  }

  /** What a list must satisfy to be written: real messages at times that never go back. */
  predicate Writable(evs: seq<Timed>) {
    && (forall i :: 0 <= i < |evs| ==> ValidMsg(evs[i].msg))
    && (forall i, j :: 0 <= i < j < |evs| ==> evs[i].tick <= evs[j].tick)
  }

  // ---- Variable-length quantities ----

  function VlqHigh(v: nat): seq<byte> {
    if v == 0 then [] else VlqHigh(v / 128) + [v % 128 + 128]
  }

  /** The quantity `n` in groups of seven bits, the last group without the continuation bit. */
  function Vlq(n: nat): seq<byte> {
    VlqHigh(n / 128) + [n % 128]
  }

  function Reverse<T>(s: seq<T>): seq<T> {
    if s == [] then [] else Reverse(s[1..]) + [s[0]]
  }

  lemma {:induction false} ReverseSnoc<T>(s: seq<T>, x: T)
    ensures Reverse(s + [x]) == [x] + Reverse(s)
  {
    if s != [] {
      assert (s + [x])[1..] == s[1..] + [x];
      ReverseSnoc(s[1..], x);
    } else {
      assert s + [x] == [x];
    }
  }

  /** `var_len`: low group first, then the higher ones with the top bit set, then reversed. */
  method VarLen(n: nat) returns (r: seq<byte>)
    ensures r == Vlq(n)
  {
    var val := n;
    var result: seq<byte> := [val % 128];
    val := val / 128;
    while val != 0
      invariant Vlq(n) == VlqHigh(val) + Reverse(result)
    {
      ReverseSnoc(result, (val % 128 + 128) as byte);
      assert VlqHigh(val) + Reverse(result)
          == VlqHigh(val / 128) + ([(val % 128 + 128) as byte] + Reverse(result));
      result := result + [val % 128 + 128];
      val := val / 128;
    }
    r := Reverse(result);
  }

  /** Reads one quantity; `acc` holds the groups read so far. */
  function ReadVlq(b: seq<byte>, acc: nat): (r: Option<(nat, seq<byte>)>)
    ensures r.Some? ==> |r.value.1| < |b|
  {
    if b == [] then None
    else if b[0] < 128 then Some((acc * 128 + b[0], b[1..]))
    else ReadVlq(b[1..], acc * 128 + (b[0] - 128))
  }

  lemma {:induction false} ReadHigh(v: nat, tail: seq<byte>)
    ensures ReadVlq(VlqHigh(v) + tail, 0) == ReadVlq(tail, v)
    decreases v
  {
    if v == 0 {
      assert VlqHigh(v) + tail == tail;
    } else {
      var d: byte := v % 128 + 128;
      assert VlqHigh(v) + tail == VlqHigh(v / 128) + ([d] + tail);
      ReadHigh(v / 128, [d] + tail);
      assert ([d] + tail)[1..] == tail;
    }
  }

  /** Every natural reads back from its own bytes, whatever follows them. */
  lemma VlqPrefixDecodable(n: nat, rest: seq<byte>)
    ensures ReadVlq(Vlq(n) + rest, 0) == Some((n, rest))
  {
    var d: byte := n % 128;
    assert Vlq(n) + rest == VlqHigh(n / 128) + ([d] + rest);
    ReadHigh(n / 128, [d] + rest);
    assert ([d] + rest)[1..] == rest;
  }

  function Pow128(k: nat): nat {
    if k == 0 then 1 else 128 * Pow128(k - 1)
  }

  lemma Pow128Positive(k: nat)
    ensures Pow128(k) > 0
  {
  }

  lemma {:induction false} HighLength(v: nat, k: nat)
    ensures |VlqHigh(v)| <= k <==> v < Pow128(k)
    decreases k
  {
    if v > 0 {
      assert |VlqHigh(v)| == |VlqHigh(v / 128)| + 1;
      if k > 0 {
        HighLength(v / 128, k - 1);
        assert v / 128 < Pow128(k - 1) <==> v < 128 * Pow128(k - 1);
      }
    } else {
      Pow128Positive(k);
    }
  }

  /** Four bytes are enough exactly below 2^28, the limit the standard sets. */
  lemma VlqFourBytes(n: nat)
    ensures |Vlq(n)| <= 4 <==> n < 0x1000_0000
  {
    HighLength(n / 128, 3);
    assert Pow128(3) == 128 * Pow128(2) == 128 * 128 * Pow128(1) == 2097152;
  }

  // ---- Messages ----

  function Bytes(m: Msg): (r: seq<byte>)
    requires ValidMsg(m)
  {
    match m
    case NoteOff(ch, note, vel) => [0x80 + ch, note, vel]
    case NoteOn(ch, note, vel) => [0x90 + ch, note, vel]
    case Program(ch, program) => [0xC0 + ch, program]
  }

  /** A decoded track event: a channel message or a meta event. */
  datatype Ev = Voice(msg: Msg) | Meta(kind: byte, data: seq<byte>)
  datatype Item = Item(tick: nat, ev: Ev)

  function ReadMeta(b: seq<byte>): (r: Option<(Ev, seq<byte>)>)
    requires |b| > 0
    ensures r.Some? ==> |r.value.1| < |b|
  {
    if |b| < 2 then None
    else match ReadVlq(b[2..], 0)
      case None => None
      case Some((n, rest)) => if |rest| < n then None else Some((Meta(b[1], rest[..n]), rest[n..]))
  }

  function ReadEvent(b: seq<byte>): (r: Option<(Ev, seq<byte>)>)
    ensures r.Some? ==> |r.value.1| < |b|
  {
    if b == [] then None
    else if b[0] == 0xFF then ReadMeta(b)
    else if 0xC0 <= b[0] < 0xD0 && |b| >= 2 && b[1] < 128 then
      Some((Voice(Program(b[0] - 0xC0, b[1])), b[2..]))
    else if 0x80 <= b[0] < 0xA0 && |b| >= 3 && b[1] < 128 && b[2] < 128 then
      Some((Voice(if b[0] < 0x90 then NoteOff(b[0] - 0x80, b[1], b[2]) else NoteOn(b[0] - 0x90, b[1], b[2])), b[3..]))
    else None
  }

  /** A whole track: events up to an end-of-track that must be the last thing in the chunk. */
  function ReadTrack(b: seq<byte>, now: nat): Option<seq<Item>>
    decreases |b|
  {
    match ReadVlq(b, 0)
    case None => None
    case Some((delta, rest)) =>
      match ReadEvent(rest)
      case None => None
      case Some((ev, rest')) =>
        if ev == Meta(0x2F, []) then (if rest' == [] then Some([]) else None)
        else match ReadTrack(rest', now + delta)
          case None => None
          case Some(items) => Some([Item(now + delta, ev)] + items)
  }

  lemma ReadsEvent(m: Msg, rest: seq<byte>)
    requires ValidMsg(m)
    ensures ReadEvent(Bytes(m) + rest) == Some((Voice(m), rest))
  {
    assert (Bytes(m) + rest)[|Bytes(m)|..] == rest;
  }

  // ---- Track and file ----

  function BigEndian(n: nat, width: nat): (r: seq<byte>)
    ensures |r| == width
  {
    if width == 0 then [] else BigEndian(n / 256, width - 1) + [n % 256]
  }

  function BigEndianValue(b: seq<byte>): nat {
    if b == [] then 0 else BigEndianValue(b[..|b| - 1]) * 256 + b[|b| - 1]
  }

  function Pow256(k: nat): nat {
    if k == 0 then 1 else 256 * Pow256(k - 1)
  }

  lemma {:induction false} BigEndianReads(n: nat, width: nat)
    requires n < Pow256(width)
    ensures BigEndianValue(BigEndian(n, width)) == n
  {
    if width > 0 {
      BigEndianReads(n / 256, width - 1);
      var b := BigEndian(n, width);
      assert b[..|b| - 1] == BigEndian(n / 256, width - 1);
    }
  }

  const END_OF_TRACK: seq<byte> := [0x00, 0xFF, 0x2F, 0x00]
  const TICKS_PER_BEAT: nat := 480

  /** The events as deltas and messages, and the end of the track. */
  function EventBytes(evs: seq<Timed>, prev: nat): seq<byte>
    requires Writable(evs) && (evs != [] ==> prev <= evs[0].tick)
  {
    if evs == [] then END_OF_TRACK
    else Vlq(evs[0].tick - prev) + (Bytes(evs[0].msg) + EventBytes(evs[1..], evs[0].tick))
  }

  /** The tempo event, cut to three bytes as the slice of the packed word does. */
  function TempoEvent(us: nat): seq<byte> {
    [0x00, 0xFF, 0x51, 0x03] + BigEndian(us, 4)[1..]
  }

  function TrackBytes(us: nat, evs: seq<Timed>): seq<byte>
    requires Writable(evs)
  {
    TempoEvent(us) + EventBytes(evs, 0)
  }

  function Chunk(tag: seq<byte>, body: seq<byte>): seq<byte> {
    tag + BigEndian(|body|, 4) + body
  }

  const MTHD: seq<byte> := [0x4D, 0x54, 0x68, 0x64]
  const MTRK: seq<byte> := [0x4D, 0x54, 0x72, 0x6B]

  function Header(): seq<byte> {
    BigEndian(0, 2) + BigEndian(1, 2) + BigEndian(TICKS_PER_BEAT, 2)
  }

  /** The file, or nothing when the track is too long for its length word (`struct.pack` raises). */
  function FileBytes(us: nat, evs: seq<Timed>): Option<seq<byte>>
    requires Writable(evs)
  {
    var track := TrackBytes(us, evs);
    if |track| < Pow256(4) then Some(Chunk(MTHD, Header()) + Chunk(MTRK, track)) else None
  }

  /** What a reader sees in a one-track file. */
  datatype File = File(format: nat, tracks: nat, division: nat, items: seq<Item>)

  /** A chunk with the given tag at the front: its body, whose length must be the declared one. */
  function ReadChunk(tag: seq<byte>, b: seq<byte>): Option<(seq<byte>, seq<byte>)> {
    if |b| < |tag| + 4 || b[..|tag|] != tag then None
    else
      var n := BigEndianValue(b[|tag|..|tag| + 4]);
      var rest := b[|tag| + 4..];
      if |rest| < n then None else Some((rest[..n], rest[n..]))
  }

  function ReadFile(b: seq<byte>): Option<File> {
    match ReadChunk(MTHD, b)
    case None => None
    case Some((h, rest)) =>
      if |h| != 6 then None else
      match ReadChunk(MTRK, rest)
      case None => None
      case Some((track, after)) =>
        if after != [] then None else
        match ReadTrack(track, 0)
        case None => None
        case Some(items) =>
          Some(File(BigEndianValue(h[..2]), BigEndianValue(h[2..4]), BigEndianValue(h[4..]), items))
  }

  function Voices(evs: seq<Timed>): seq<Item> {
    seq(|evs|, i requires 0 <= i < |evs| => Item(evs[i].tick, Voice(evs[i].msg)))
  }

  lemma {:induction false} EventsReadBack(evs: seq<Timed>, prev: nat)
    requires Writable(evs) && (evs != [] ==> prev <= evs[0].tick)
    ensures ReadTrack(EventBytes(evs, prev), prev) == Some(Voices(evs))
    decreases |evs|
  {
    if evs == [] {
      EndReadsBack(prev);
      assert Voices(evs) == [];
    } else {
      var rest := EventBytes(evs[1..], evs[0].tick);
      EventsReadBack(evs[1..], evs[0].tick);
      EventReadsBack(evs[0].tick - prev, evs[0].msg, rest, prev, evs[0].tick, Voices(evs[1..]));
      VoicesStep(evs);
    }
  }

  lemma VoicesStep(evs: seq<Timed>)
    requires evs != []
    ensures Voices(evs) == [Item(evs[0].tick, Voice(evs[0].msg))] + Voices(evs[1..])
  {
  }

  lemma {:induction false} EndReadsBack(now: nat)
    ensures ReadTrack(END_OF_TRACK, now) == Some([])
  {
    var end: seq<byte> := [0xFF, 0x2F, 0x00];
    assert END_OF_TRACK == Vlq(0) + end;
    VlqPrefixDecodable(0, end);
    VlqPrefixDecodable(0, []);
    assert end[2..] == Vlq(0) + [];
    assert ReadEvent(end) == Some((Meta(0x2F, []), []));
  }

  lemma {:induction false} EventReadsBack(delta: nat, m: Msg, rest: seq<byte>, now: nat, tick: nat, items: seq<Item>)
    requires ValidMsg(m) && tick == now + delta && ReadTrack(rest, tick) == Some(items)
    ensures ReadTrack(Vlq(delta) + (Bytes(m) + rest), now) == Some([Item(tick, Voice(m))] + items)
  {
    VlqPrefixDecodable(delta, Bytes(m) + rest);
    ReadsEvent(m, rest);
  }

  lemma {:induction false} ChunkReadsBack(tag: seq<byte>, body: seq<byte>, rest: seq<byte>)
    requires |body| < Pow256(4)
    ensures ReadChunk(tag, Chunk(tag, body) + rest) == Some((body, rest))
  {
    var b := Chunk(tag, body) + rest;
    assert b[..|tag|] == tag;
    assert b[|tag|..|tag| + 4] == BigEndian(|body|, 4);
    BigEndianReads(|body|, 4);
    assert b[|tag| + 4..] == body + rest;
    assert (body + rest)[..|body|] == body && (body + rest)[|body|..] == rest;
  }

  lemma {:induction false} TempoReadsBack(us: nat, rest: seq<byte>, items: seq<Item>)
    requires ReadTrack(rest, 0) == Some(items)
    ensures ReadTrack(TempoEvent(us) + rest, 0) == Some([Item(0, Meta(0x51, BigEndian(us, 4)[1..]))] + items)
  {
    var data := BigEndian(us, 4)[1..];
    TempoBytes(us, data, rest);
    VlqPrefixDecodable(0, [0xFF, 0x51] + (Vlq(|data|) + (data + rest)));
    MetaReadsBack(0x51, data, rest);
  }

  lemma {:induction false} TempoBytes(us: nat, data: seq<byte>, rest: seq<byte>)
    requires data == BigEndian(us, 4)[1..]
    ensures TempoEvent(us) + rest == Vlq(0) + ([0xFF, 0x51] + (Vlq(|data|) + (data + rest)))
  {
    assert Vlq(0) == [0] && Vlq(3) == [3];
  }

  lemma {:induction false} MetaReadsBack(kind: byte, data: seq<byte>, rest: seq<byte>)
    ensures ReadEvent([0xFF, kind] + (Vlq(|data|) + (data + rest))) == Some((Meta(kind, data), rest))
  {
    var ev: seq<byte> := [0xFF, kind] + (Vlq(|data|) + (data + rest));
    assert ev[2..] == Vlq(|data|) + (data + rest);
    VlqPrefixDecodable(|data|, data + rest);
    assert (data + rest)[..|data|] == data && (data + rest)[|data|..] == rest;
  }

  /** The reader recovers every ordered event list, tick for tick, and finds both lengths right. */
  lemma {:induction false} ReadsBack(us: nat, evs: seq<Timed>)
    requires Writable(evs) && FileBytes(us, evs).Some?
    ensures ReadFile(FileBytes(us, evs).value)
         == Some(File(0, 1, TICKS_PER_BEAT, [Item(0, Meta(0x51, BigEndian(us, 4)[1..]))] + Voices(evs)))
  {
    var track := TrackBytes(us, evs);
    EventsReadBack(evs, 0);
    var body := EventBytes(evs, 0);
    TempoReadsBack(us, body, Voices(evs));
    assert track == TempoEvent(us) + body;
    HeaderFields();
    var h := Header();
    assert Pow256(4) == 256 * Pow256(3);
    ChunkReadsBack(MTHD, h, Chunk(MTRK, track));
    ChunkReadsBack(MTRK, track, []);
    assert Chunk(MTRK, track) + [] == Chunk(MTRK, track);
  }

  lemma HeaderFields()
    ensures |Header()| == 6 < Pow256(4)
    ensures BigEndianValue(Header()[..2]) == 0
    ensures BigEndianValue(Header()[2..4]) == 1
    ensures BigEndianValue(Header()[4..]) == TICKS_PER_BEAT
  {
    assert Pow256(2) == 256 * Pow256(1) == 65536;
    assert Pow256(4) == 256 * Pow256(3) == 256 * 256 * Pow256(2);
    BigEndianReads(0, 2);
    BigEndianReads(1, 2);
    BigEndianReads(TICKS_PER_BEAT, 2);
    assert Header()[..2] == BigEndian(0, 2);
    assert Header()[2..4] == BigEndian(1, 2);
    assert Header()[4..] == BigEndian(TICKS_PER_BEAT, 2);
  }

  lemma {:induction false} EventBytesLength(evs: seq<Timed>, prev: nat)
    requires Writable(evs) && (evs != [] ==> prev <= evs[0].tick)
    requires forall i :: 0 <= i < |evs| ==> evs[i].tick < 0x1000_0000
    ensures |EventBytes(evs, prev)| <= 7 * |evs| + 4
    decreases |evs|
  {
    if evs != [] {
      VlqFourBytes(evs[0].tick - prev);
      EventBytesLength(evs[1..], evs[0].tick);
    }
  }

  /** Any list of up to 600 million messages within 2^28 ticks fits a file. */
  lemma {:induction false} FileFits(us: nat, evs: seq<Timed>)
    requires Writable(evs) && |evs| <= 600_000_000
    requires forall i :: 0 <= i < |evs| ==> evs[i].tick < 0x1000_0000
    ensures FileBytes(us, evs).Some?
  {
    EventBytesLength(evs, 0);
    assert Pow256(4) == 256 * Pow256(3) == 256 * 256 * Pow256(2) == 256 * 256 * 256 * Pow256(1) == 0x1_0000_0000;
  }

  /** The tempo survives its three bytes exactly for tempos of at least four beats a minute. */
  lemma TempoSurvives(tempo: nat)
    requires 1 <= tempo <= 60_000_000
    ensures BigEndianValue(BigEndian(60_000_000 / tempo, 4)[1..]) == 60_000_000 / tempo <==> tempo >= 4
  {
    var us := 60_000_000 / tempo;
    BigEndianTail(us);
    ThreeBytesRead(us % 0x100_0000);
    TempoRange(tempo);
    assert us < 0x100_0000 <==> us % 0x100_0000 == us;
  }

  lemma ThreeBytesRead(n: nat)
    requires n < 0x100_0000
    ensures BigEndianValue(BigEndian(n, 3)) == n
  {
    assert Pow256(3) == 256 * Pow256(2) == 256 * 256 * Pow256(1) == 0x100_0000;
    BigEndianReads(n, 3);
  }

  lemma TempoRange(tempo: nat)
    requires 1 <= tempo <= 60_000_000
    ensures 60_000_000 / tempo < 0x100_0000 <==> tempo >= 4
  {
    var us := 60_000_000 / tempo;
    if tempo >= 4 {
      assert us * tempo <= 60_000_000;
      assert us * 4 <= us * tempo;
    } else {
      assert tempo == 1 || tempo == 2 || tempo == 3;
    }
  }

  lemma BigEndianTail(n: nat)
    ensures BigEndian(n, 4)[1..] == BigEndian(n % 0x100_0000, 3)
  {
    var b1, b2, b3, b4 := n % 256, n / 256 % 256, n / 256 / 256 % 256, n / 256 / 256 / 256 % 256;
    BigEndianDigits(n, b4, b3, b2, b1);
    ThreeDigits(n % 0x100_0000);
    LowDigits(n);
  }

  lemma BigEndianDigits(n: nat, b4: byte, b3: byte, b2: byte, b1: byte)
    requires b1 == n % 256 && b2 == n / 256 % 256 && b3 == n / 256 / 256 % 256 && b4 == n / 256 / 256 / 256 % 256
    ensures BigEndian(n, 4) == [b4, b3, b2, b1]
  {
    ThreeDigits(n / 256);
    assert BigEndian(n, 4) == BigEndian(n / 256, 3) + [b1];
  }

  lemma ThreeDigits(n: nat)
    ensures BigEndian(n, 3) == [n / 256 / 256 % 256, n / 256 % 256, n % 256]
  {
    assert BigEndian(n / 256 / 256, 1) == BigEndian(n / 256 / 256 / 256, 0) + [n / 256 / 256 % 256];
    assert BigEndian(n / 256, 2) == [n / 256 / 256 % 256, n / 256 % 256];
  }

  lemma LowDigits(n: nat)
    ensures n % 0x100_0000 % 256 == n % 256
    ensures n % 0x100_0000 / 256 % 256 == n / 256 % 256
    ensures n % 0x100_0000 / 256 / 256 % 256 == n / 256 / 256 % 256
  {
    var q, m := n / 0x100_0000, n % 0x100_0000;
    assert n == 0x100_0000 * q + m;
    assert n / 256 == 0x1_0000 * q + m / 256;
    assert n / 256 / 256 == 256 * q + m / 256 / 256;
  }

  /** The emission loop: a running previous tick, one delta and one message at a time. */
  method EmitTrack(us: nat, evs: seq<Timed>) returns (track: seq<byte>)
    requires Writable(evs)
    ensures track == TrackBytes(us, evs)
  {
    track := TempoEvent(us);
    var prev: nat := 0;
    assert evs[0..] == evs;
    ghost var whole := TempoEvent(us) + EventBytes(evs, 0);
    for i := 0 to |evs|
      invariant Writable(evs[i..]) && (i < |evs| ==> prev <= evs[i].tick)
      invariant track + EventBytes(evs[i..], prev) == whole
    {
      var delta := VarLen(evs[i].tick - prev);
      EventBytesStep(evs, i, prev, track);
      track := track + delta + Bytes(evs[i].msg);
      prev := evs[i].tick;
    }
    assert evs[|evs|..] == [];
    track := track + END_OF_TRACK;
  }

  lemma Regroup(a: seq<byte>, b: seq<byte>, c: seq<byte>, d: seq<byte>)
    ensures a + (b + (c + d)) == a + b + c + d
  {
  }

  lemma {:induction false} EventBytesStep(evs: seq<Timed>, i: nat, prev: nat, track: seq<byte>)
    requires i < |evs| && Writable(evs[i..]) && prev <= evs[i].tick
    ensures Writable(evs[i + 1..]) && (i + 1 < |evs| ==> evs[i].tick <= evs[i + 1].tick)
    ensures ValidMsg(evs[i].msg)
    ensures track + EventBytes(evs[i..], prev)
         == (track + Vlq(evs[i].tick - prev) + Bytes(evs[i].msg)) + EventBytes(evs[i + 1..], evs[i].tick)
  {
    Regroup(track, Vlq(evs[i].tick - prev), Bytes(evs[i].msg), EventBytes(evs[i + 1..], evs[i].tick));
    var rest := evs[i..];
    assert rest[1..] == evs[i + 1..];
    assert rest[0] == evs[i] && (|rest| > 1 ==> rest[1] == evs[i + 1]);
  }

  method EmitFile(us: nat, evs: seq<Timed>) returns (file: Option<seq<byte>>)
    requires Writable(evs)
    ensures file == FileBytes(us, evs)
  {
    var track := EmitTrack(us, evs);
    if |track| >= Pow256(4) {
      return None;
    }
    return Some(Chunk(MTHD, Header()) + Chunk(MTRK, track));
  }
}
