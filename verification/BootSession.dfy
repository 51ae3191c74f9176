/** Persistent boot-session identifiers in two alternating files (`pico/boot_session.py`). */
module BootSession {
  import opened Options
  import opened Bytes

  const MAGIC: seq<byte> := [0x42, 0x4D, 0x53, 0x31]
  const RECORD_SIZE: nat := 16
  const CHECK_XOR: seq<byte> := [0xB4, 0xC0, 0x5E, 0xED]
  const LAST_ID: u64 := 0xFFFF_FFFF_FFFF_FFFF

  function Xor(a: byte, b: byte): byte { Value(Bits(a) ^ Bits(b)) }

  /** The four check bytes: high word, low word and constant, folded byte by byte. */
  function Check(value: seq<byte>): (check: seq<byte>)
    requires |value| == 8
    ensures |check| == 4
  {
    seq(4, i requires 0 <= i < 4 && |value| == 8 => Xor(Xor(value[i], value[4 + i]), CHECK_XOR[i]))
  }

  function Encode(value: u64): (raw: seq<byte>)
    ensures |raw| == RECORD_SIZE
  {
    FieldWidths();
    MAGIC + BE(value, 8) + Check(BE(value, 8))
  }

  /** `_decode`: a record of the right size, magic and check, with a nonzero value. */
  function Decode(raw: seq<byte>): (value: Option<u64>)
    ensures value.Some? ==> value.value > 0
  {
    if |raw| != RECORD_SIZE || raw[..4] != MAGIC then None
    else
      FieldWidths();
      var value: u64 := FromBE(raw[4..12]);
      if value > 0 && raw[12..16] == Check(raw[4..12]) then Some(value) else None
  }

  lemma DecodeEncode(value: u64)
    ensures Decode(Encode(value)) == if value > 0 then Some(value) else None
  {
    hide Check, BE, FromBE;
    FieldWidths();
    var raw := Encode(value);
    FromBEofBE(value, 8);
    assert raw[..4] == MAGIC;
    assert raw[4..12] == BE(value, 8);
    assert raw[12..16] == Check(BE(value, 8));
  }

  function Bits(b: byte): bv8 { b as bv8 }

  function Value(x: bv8): byte { x as byte }

  lemma ValueOf(x: bv8)
    ensures Bits(Value(x)) == x
  {
  }

  lemma NextBits(x: bv8)
    requires x != 0xFF
    ensures Value(x + 1) == Value(x) + 1
  {
  }

  lemma {:induction false} BitsOf(b: byte)
    ensures Value(Bits(b)) == b
    ensures b > 0 ==> Bits(b - 1) != 0xFF
    decreases b
  {
    hide Bits, Value;
    if b == 0 {
      assert Value(0) == 0 by {
        ZeroBits();
      }
      ValueOf(0);
    } else {
      BitsOf(b - 1);
      var x := Bits(b - 1);
      TopBits();
      NextBits(x);
      ValueOf(x + 1);
    }
  }

  lemma ZeroBits()
    ensures Value(0) == 0
  {
  }

  lemma TopBits()
    ensures Value(0xFF) == 0xFF
  {
  }

  lemma XorCancels(x: bv8, y: bv8, z: bv8)
    ensures x ^ z == y ^ z ==> x == y
    ensures z ^ x == z ^ y ==> x == y
  {
  }

  /** An exclusive or with a fixed byte tells its other argument. */
  lemma XorTells(a: byte, b: byte, c: byte)
    ensures Xor(a, c) == Xor(b, c) ==> a == b
    ensures Xor(c, a) == Xor(c, b) ==> a == b
  {
    hide Bits, Value;
    BitsOf(a);
    BitsOf(b);
    XorCancels(Bits(a), Bits(b), Bits(c));
    ValueOf(Bits(a) ^ Bits(c));
    ValueOf(Bits(b) ^ Bits(c));
    ValueOf(Bits(c) ^ Bits(a));
    ValueOf(Bits(c) ^ Bits(b));
  }

  /** The check sees every change of one byte of the value. */
  lemma CheckTells(value: seq<byte>, i: nat, b: byte)
    requires |value| == 8 && i < 8 && value[i] != b
    ensures Check(value[i := b]) != Check(value)
  {
    hide Xor;
    var k, other := if i < 4 then i else i - 4, value[i := b];
    var x, y := if i < 4 then value[4 + k] else value[k], CHECK_XOR[k];
    XorTells(value[i], b, x);
    if i < 4 {
      XorTells(Xor(value[k], x), Xor(b, x), y);
    } else {
      XorTells(Xor(x, value[i]), Xor(x, b), y);
    }
    assert Check(other)[k] != Check(value)[k];
  }

  /** A record in which any one byte was changed is not read as an identifier. */
  lemma OneChangedByteIsCaught(value: u64, i: nat, b: byte)
    requires i < RECORD_SIZE && Encode(value)[i] != b
    ensures Decode(Encode(value)[i := b]) == None
  {
    hide Check, BE, FromBE;
    FieldWidths();
    var raw := Encode(value);
    var bad := raw[i := b];
    if i < 4 {
      assert bad[..4][i] != MAGIC[i];
    } else if i < 12 {
      assert raw[4..12] == BE(value, 8) && raw[12..16] == Check(raw[4..12]);
      assert bad[4..12] == raw[4..12][i - 4 := b] && bad[12..16] == raw[12..16];
      CheckTells(raw[4..12], i - 4, b);
    } else {
      assert raw[4..12] == BE(value, 8) && raw[12..16] == Check(raw[4..12]);
      assert bad[4..12] == raw[4..12];
      assert bad[12..16][i - 12] != raw[12..16][i - 12];
    }
  }

  // ----- The two files -----

  /** What the files `bmcu_boot.a` and `bmcu_boot.b` hold; None if a file is missing. */
  datatype Files = Files(a: Option<seq<byte>>, b: Option<seq<byte>>)

  function Slot(f: Files, slot: nat): Option<seq<byte>>
    requires slot < 2
  {
    if slot == 0 then f.a else f.b
  }

  function Put(f: Files, slot: nat, raw: seq<byte>): Files
    requires slot < 2
  {
    if slot == 0 then f.(a := Some(raw)) else f.(b := Some(raw))
  }

  function Stored(f: Files, slot: nat): Option<u64>
    requires slot < 2
  {
    match Slot(f, slot)
    case None => None
    case Some(raw) => Decode(raw)
  }

  /** The largest identifier on disk; 0 if there is none. */
  function Top(f: Files): u64 {
    match (Stored(f, 0), Stored(f, 1))
    case (Some(x), Some(y)) => if x > y then x else y
    case (Some(x), None) => x
    case (None, Some(y)) => y
    case (None, None) => 0
  }

  /** The identifier `next_boot_id` picks, and the slot it writes. */
  function NextId(f: Files, random: u64): (id: u64)
    ensures id > 0
  {
    var value := if Stored(f, 0).Some? || Stored(f, 1).Some? then (Top(f) + 1) % MASK64 else random;
    if value == 0 then 1 else value
  }

  function TargetSlot(id: u64): (slot: nat)
    ensures slot < 2
  {
    id % 2
  }

  /** One boot: `written` bytes of the record reach the file, and the call may not return. */
  datatype Boot = Boot(random: u64, written: nat, completes: bool)

  predicate Possible(b: Boot) { b.written <= RECORD_SIZE && (b.completes ==> b.written == RECORD_SIZE) }

  function After(f: Files, b: Boot): Files
    requires Possible(b)
  {
    var id := NextId(f, b.random);
    Put(f, TargetSlot(id), Encode(id)[..b.written])
  }

  /** Every readable identifier sits in the slot of its own parity. */
  predicate Parity(f: Files) {
    (Stored(f, 0).Some? ==> Stored(f, 0).value % 2 == 0) && (Stored(f, 1).Some? ==> Stored(f, 1).value % 2 == 1)
  }

  lemma SlotAfter(f: Files, b: Boot)
    requires Possible(b)
    ensures var id, r := NextId(f, b.random), After(f, b);
            && Stored(r, TargetSlot(id)) == (if b.written == RECORD_SIZE then Some(id) else None)
            && Stored(r, 1 - TargetSlot(id)) == Stored(f, 1 - TargetSlot(id))
  {
    hide Encode, Decode, Check;
    var id := NextId(f, b.random);
    DecodeEncode(id);
    if b.written == RECORD_SIZE {
      assert Encode(id)[..RECORD_SIZE] == Encode(id);
    } else {
      ShortIsUnreadable(Encode(id)[..b.written]);
    }
  }

  lemma ShortIsUnreadable(raw: seq<byte>)
    requires |raw| != RECORD_SIZE
    ensures Decode(raw) == None
  {
  }

  /**
   One boot, torn anywhere or not: parity stays, the slot written is never the one that holds
   the largest identifier, and the largest never gets smaller.
   */
  lemma BootKeepsTheTop(f: Files, b: Boot)
    requires Parity(f) && Possible(b) && Top(f) < LAST_ID
    ensures var id, r := NextId(f, b.random), After(f, b);
            && Parity(r)
            && (Top(f) > 0 ==> id == Top(f) + 1 && Stored(f, TargetSlot(id)) != Some(Top(f)))
            && id > Top(f)
            && Top(r) == if b.written == RECORD_SIZE then id else Top(f)
  {
    hide Encode, Decode;
    SlotAfter(f, b);
  }

  predicate Feasible(boots: seq<Boot>) { forall b :: b in boots ==> Possible(b) }

  /** No boot of the run starts from the last identifier there is. */
  predicate Room(f: Files, boots: seq<Boot>)
    requires Feasible(boots)
    decreases boots
  {
    boots != [] ==> Top(f) < LAST_ID && Room(After(f, boots[0]), boots[1..])
  }

  /** The identifiers the calls of the run return. */
  function Returned(f: Files, boots: seq<Boot>): seq<u64>
    requires Feasible(boots)
    decreases boots
  {
    if boots == [] then []
    else (if boots[0].completes then [NextId(f, boots[0].random)] else []) + Returned(After(f, boots[0]), boots[1..])
  }

  predicate Increasing(ids: seq<u64>, above: nat) {
    && (forall i :: 0 <= i < |ids| ==> ids[i] > above)
    && (forall i, j :: 0 <= i < j < |ids| ==> ids[i] < ids[j])
  }

  lemma IncreasingOnTop(id: u64, rest: seq<u64>, above: nat)
    requires id > above && Increasing(rest, id)
    ensures Increasing([id] + rest, above)
  {
    var ids := [id] + rest;
    assert forall i :: 0 < i < |ids| ==> ids[i] == rest[i - 1];
  }

  /** Whatever each crash leaves of its record, returned identifiers strictly increase. */
  lemma {:induction false} NeverReused(f: Files, boots: seq<Boot>)
    requires Parity(f) && Feasible(boots) && Room(f, boots)
    ensures Increasing(Returned(f, boots), Top(f))
    decreases boots
  {
    if boots != [] {
      hide After, NextId, Top, Parity, TargetSlot, Stored, Encode, Increasing;
      BootKeepsTheTop(f, boots[0]);
      var id, r := NextId(f, boots[0].random), After(f, boots[0]);
      NeverReused(r, boots[1..]);
      var rest := Returned(r, boots[1..]);
      if boots[0].completes {
        IncreasingOnTop(id, rest, Top(f));
      } else {
        assert Returned(f, boots) == [] + rest == rest;
        StillIncreasing(rest, Top(r), Top(f));
      }
    }
  }

  lemma StillIncreasing(ids: seq<u64>, above: nat, lower: nat)
    requires Increasing(ids, above) && lower <= above
    ensures Increasing(ids, lower)
  {
  }

  /** The step is an increase if and only if the last identifier is not yet on disk. */
  lemma IncreasesIffRoom(f: Files, random: u64)
    requires Top(f) > 0
    ensures NextId(f, random) > Top(f) <==> Top(f) != LAST_ID
    ensures Top(f) == LAST_ID ==> NextId(f, random) == 1
  {
    hide Decode;
  }

  // ----- The program's own form -----

  class BootStore {
    var files: Files

    constructor (found: Files)
      ensures files == found
    {
      files := found;
    }

    /** `next_boot_id`; None if the power fails before it returns. */
    method NextBootId(random: u64, written: nat, completes: bool) returns (id: Option<u64>)
      requires Possible(Boot(random, written, completes))
      modifies this
      ensures files == After(old(files), Boot(random, written, completes))
      ensures id == if completes then Some(NextId(old(files), random)) else None
    {
      hide Decode, Encode;
      var a, b := Stored(files, 0), Stored(files, 1);
      var value: u64 := random;
      if a.Some? && b.Some? {
        value := ((if a.value > b.value then a.value else b.value) + 1) % MASK64;
      } else if a.Some? {
        value := (a.value + 1) % MASK64;
      } else if b.Some? {
        value := (b.value + 1) % MASK64;
      }
      if value == 0 {
        value := 1;
      }
      var record := Encode(value);
      files := Put(files, value % 2, record[..written]);
      id := if completes then Some(value) else None;
    }
  }
}
