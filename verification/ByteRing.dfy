/** The fixed-slot circular store under every queue (`pico/byte_ring.py`). */
module ByteRings {
  import opened Bytes
  import opened Options
  import opened Arithmetic

  /** One stored record, as `peek` and `iter_records` return it. */
  datatype Rec = Rec(sequence: nat, data: seq<byte>, guarded: bool, key: int)

  datatype Outcome = Appended | Replaced | Full | TooLarge

  // ----- The abstract queue: a sequence of records, oldest first -----

  /** The first record stored under this replace key, or |q|. */
  function FindKey(q: seq<Rec>, key: int): (i: nat)
    ensures i <= |q|
    ensures i < |q| ==> q[i].key == key
    ensures forall k :: 0 <= k < i ==> q[k].key != key
  {
    if q == [] then 0
    else if q[0].key == key then 0
    else 1 + FindKey(q[1..], key)
  }

  function AppendOutcome(q: seq<Rec>, capacity: nat, slotSize: nat, r: Rec): Outcome {
    if |r.data| > slotSize then TooLarge
    else if r.key >= 0 && FindKey(q, r.key) < |q| then Replaced
    else if |q| >= capacity then Full
    else Appended
  }

  function AppendQueue(q: seq<Rec>, capacity: nat, slotSize: nat, r: Rec): seq<Rec> {
    match AppendOutcome(q, capacity, slotSize, r)
    case Appended => q + [r]
    case Replaced => q[FindKey(q, r.key) := r]
    case _ => q
  }

  /** Replaceable records are the latest of their key: no key is stored twice. */
  ghost predicate DistinctKeys(q: seq<Rec>) {
    forall i, j :: 0 <= i < j < |q| && q[i].key >= 0 ==> q[i].key != q[j].key
  }

  lemma AppendKeepsKeysDistinct(q: seq<Rec>, capacity: nat, slotSize: nat, r: Rec)
    requires DistinctKeys(q)
    ensures DistinctKeys(AppendQueue(q, capacity, slotSize, r))
  {
    var i := FindKey(q, r.key);
  }

  /** A stored replaceable record is the only one of its key, and it is the latest. */
  lemma LatestPerKey(q: seq<Rec>, capacity: nat, slotSize: nat, r: Rec)
    requires DistinctKeys(q) && r.key >= 0
    requires AppendOutcome(q, capacity, slotSize, r) in {Appended, Replaced}
    ensures var q' := AppendQueue(q, capacity, slotSize, r);
            && r in q'
            && (forall x: Rec :: x in q' && x.key == r.key ==> x == r)
            && (forall x: Rec :: x.key != r.key ==> (x in q' <==> x in q))
  {
    var q', i := AppendQueue(q, capacity, slotSize, r), FindKey(q, r.key);
    if i < |q| {
      assert q'[i] == r;
      forall x: Rec | x.key != r.key && x in q
        ensures x in q'
      {
        var k :| 0 <= k < |q| && q[k] == x;
        assert q'[k] == x;
      }
    } else {
      assert q'[|q|] == r;
    }
  }

  /** What `release_through` leaves. */
  function ReleaseQueue(q: seq<Rec>, watermark: int): (rest: seq<Rec>)
    ensures |rest| <= |q|
  {
    if q != [] && q[0].sequence <= watermark then ReleaseQueue(q[1..], watermark) else q
  }

  /** It drops the longest prefix that the watermark covers, and nothing behind it. */
  lemma {:induction false} ReleasesPrefix(q: seq<Rec>, watermark: int)
    ensures var rest := ReleaseQueue(q, watermark);
            && rest == q[|q| - |rest|..]
            && (forall k :: 0 <= k < |q| - |rest| ==> q[k].sequence <= watermark)
            && (rest != [] ==> rest[0].sequence > watermark)
  {
    if q != [] && q[0].sequence <= watermark {
      ReleasesPrefix(q[1..], watermark);
    }
  }

  class ByteRing {
    const storage: array<byte>
    const slotSize: nat
    const capacity: nat
    const lengths: array<nat>
    const sequences: array<nat>
    const guarded: array<bool>
    const replaceKeys: array<int>
    ghost const Repr: set<object>
    var head: nat
    var count: nat

    ghost predicate Shaped()
      reads this, Repr
    {
      && Repr == {this, storage, lengths, sequences, guarded, replaceKeys}
      && lengths != sequences
      && 0 < slotSize && 0 < capacity && capacity * slotSize <= storage.Length
      && lengths.Length == sequences.Length == guarded.Length == replaceKeys.Length == capacity
      && head < capacity && count <= capacity
      && (forall i :: 0 <= i < capacity ==> lengths[i] <= slotSize)
    }

    ghost predicate Valid()
      reads this, Repr
      ensures Valid() ==> Shaped() && this in Repr && 0 < capacity
    {
      Shaped() && DistinctKeys(Contents())
    }

    /** The record in physical slot i, empty if the slot lies outside the storage. */
    ghost function Slot(i: nat): Rec
      requires i < lengths.Length && i < sequences.Length && i < guarded.Length && i < replaceKeys.Length
      reads storage, lengths, sequences, guarded, replaceKeys
    {
      var start, end := i * slotSize, i * slotSize + lengths[i];
      Rec(sequences[i], if end <= storage.Length then storage[start..end] else [], guarded[i], replaceKeys[i])
    }

    function Index(logical: nat): (i: nat)
      requires 0 < capacity && head < capacity && logical <= capacity
      reads this
      ensures i == if head + logical < capacity then head + logical else head + logical - capacity
      ensures i < capacity
    {
      WrapIndex(head + logical, capacity);
      (head + logical) % capacity
    }

    /** The abstract queue: the occupied slots, oldest first. */
    ghost function Contents(): (q: seq<Rec>)
      requires Shaped()
      reads this, Repr
      ensures |q| == count <= capacity
    {
      seq(count, k requires 0 <= k < count && Shaped() reads this, Repr => Slot(Index(k)))
    }

    constructor (slots: nat, slotSize: nat)
      requires 0 < slots && 0 < slotSize
      ensures Valid() && fresh(Repr)
      ensures Contents() == [] && capacity == slots && this.slotSize == slotSize
    {
      var bytes := new byte[slots * slotSize](_ => 0);
      var sizes, seqs := new nat[slots](_ => 0), new nat[slots](_ => 0);
      var flags := new bool[slots](_ => false);
      var keys := new int[slots](_ => -1);
      storage, lengths, sequences, guarded, replaceKeys := bytes, sizes, seqs, flags, keys;
      this.slotSize, capacity := slotSize, slots;
      head, count := 0, 0;
      Repr := {this, bytes, sizes, seqs, flags, keys};
    }

    /** Slot i is untouched if its length, tags and bytes are. */
    twostate lemma SameSlot(i: nat)
      requires i < lengths.Length && i < sequences.Length && i < guarded.Length && i < replaceKeys.Length
      requires lengths[i] == old(lengths[i]) && sequences[i] == old(sequences[i])
      requires guarded[i] == old(guarded[i]) && replaceKeys[i] == old(replaceKeys[i])
      requires forall p :: i * slotSize <= p < i * slotSize + lengths[i] && 0 <= p < storage.Length ==> storage[p] == old(storage[p])
      ensures Slot(i) == old(Slot(i))
    {
      var start, end := i * slotSize, i * slotSize + lengths[i];
      if end <= storage.Length {
        assert storage[start..end] == old(storage[start..end]);
      }
    }

    method CopyInto(index: nat, data: seq<byte>) returns (ok: bool)
      requires Valid() && index < capacity
      modifies storage, lengths
      ensures ok <==> |data| <= slotSize
      ensures !ok ==> unchanged(storage) && unchanged(lengths)
      ensures ok ==> lengths[index] == |data| && Slot(index).data == data
      ensures forall i :: 0 <= i < capacity && i != index ==> lengths[i] == old(lengths[i])
      ensures ok ==> forall i :: 0 <= i < capacity && i != index ==> Slot(i) == old(Slot(i))
    {
      if |data| > slotSize {
        return false;
      }
      var start := index * slotSize;
      SlotsApart(index, capacity, slotSize);
      forall i | 0 <= i < |data| {
        storage[start + i] := data[i];
      }
      lengths[index] := |data|;
      assert storage[start..start + |data|] == data;
      forall i: nat | i < capacity && i != index
        ensures Slot(i) == old(Slot(i))
      {
        if i < index {
          SlotsApart(i, index, slotSize);
        } else {
          SlotsApart(index, i, slotSize);
        }
        SameSlot(i);
      }
      return true;
    }

    /** Write one whole slot: bytes and tags. */
    method Store(index: nat, r: Rec)
      requires Valid() && index < capacity && |r.data| <= slotSize
      modifies storage, lengths, sequences, guarded, replaceKeys
      ensures lengths[index] <= slotSize
      ensures forall i :: 0 <= i < capacity && i != index ==> lengths[i] == old(lengths[i])
      ensures Slot(index) == r
      ensures forall i :: 0 <= i < capacity && i != index ==> Slot(i) == old(Slot(i))
    {
      var ok := CopyInto(index, r.data);
      label copied:
      sequences[index] := r.sequence;
      guarded[index] := r.guarded;
      replaceKeys[index] := r.key;
      forall i: nat | i < capacity && i != index
        ensures Slot(i) == old(Slot(i))
      {
        SameSlot@copied(i);
      }
    }

    method Overwrite(logical: nat, r: Rec)
      requires Valid() && logical < count && |r.data| <= slotSize
      requires DistinctKeys(Contents()[logical := r])
      modifies storage, lengths, sequences, guarded, replaceKeys
      ensures Valid() && Contents() == old(Contents())[logical := r]
    {
      ghost var q := Contents();
      Store(Index(logical), r);
      assert Contents() == q[logical := r] by {
        hide DistinctKeys;
      }
    }

    method PushBack(r: Rec)
      requires Valid() && count < capacity && |r.data| <= slotSize
      requires DistinctKeys(Contents() + [r])
      modifies this, storage, lengths, sequences, guarded, replaceKeys
      ensures Valid() && Contents() == old(Contents()) + [r]
    {
      ghost var q := Contents();
      Store(Index(count), r);
      count := count + 1;
      assert Contents() == q + [r] by {
        hide DistinctKeys;
      }
    }

    /** The scan at the head of `append`: the occupied slot that holds this key. */
    method FindLogical(key: int) returns (logical: nat)
      requires Valid()
      ensures logical == FindKey(Contents(), key)
    {
      logical := 0;
      while logical < count
        invariant logical <= count
        invariant forall k :: 0 <= k < logical ==> Contents()[k].key != key
      {
        var index := Index(logical);
        assert Contents()[logical] == Slot(index);
        if replaceKeys[index] == key {
          return;
        }
        logical := logical + 1;
      }
    }

    /** `append`, with the two exceptions as outcomes. */
    method Append(sequence: nat, data: seq<byte>, isGuarded: bool, key: int) returns (outcome: Outcome)
      requires Valid()
      modifies Repr
      ensures Valid()
      ensures outcome == AppendOutcome(old(Contents()), capacity, slotSize, Rec(sequence, data, isGuarded, key))
      ensures Contents() == AppendQueue(old(Contents()), capacity, slotSize, Rec(sequence, data, isGuarded, key))
    {
      hide DistinctKeys;
      var r := Rec(sequence, data, isGuarded, key);
      AppendKeepsKeysDistinct(Contents(), capacity, slotSize, r);
      if |data| > slotSize {
        return TooLarge;
      }
      if key >= 0 {
        var logical := FindLogical(key);
        if logical < count {
          Overwrite(logical, r);
          return Replaced;
        }
      }
      if count == capacity {
        return Full;
      }
      PushBack(r);
      return Appended;
    }

    /** Free the head slot and step over it. */
    method DropHead()
      requires Valid() && count > 0
      modifies this, lengths, guarded, replaceKeys
      ensures Valid() && Contents() == old(Contents())[1..]
    {
      ghost var q := Contents();
      lengths[head] := 0;
      guarded[head] := false;
      replaceKeys[head] := -1;
      forall i: nat | i < capacity && i != head
        ensures Slot(i) == old(Slot(i))
      {
        SameSlot(i);
      }
      WrapIndex(head + 1, capacity);
      head := (head + 1) % capacity;
      count := count - 1;
      assert Contents() == q[1..] by {
        hide DistinctKeys, Slot;
      }
    }

    method Peek() returns (r: Option<Rec>)
      requires Valid()
      ensures r == if Contents() == [] then None else Some(Contents()[0])
    {
      if count == 0 {
        return None;
      }
      var start := head * slotSize;
      SlotsApart(head, capacity, slotSize);
      assert Index(0) == head && Contents()[0] == Slot(head);
      r := Some(Rec(sequences[head], storage[start..start + lengths[head]], guarded[head], replaceKeys[head]));
    }

    method ReleaseThrough(watermark: int) returns (released: nat)
      requires Valid()
      modifies Repr
      ensures Valid() && Contents() == ReleaseQueue(old(Contents()), watermark)
      ensures released == |old(Contents())| - |Contents()|
    {
      released := 0;
      while count > 0 && sequences[head] <= watermark
        invariant Valid()
        invariant ReleaseQueue(Contents(), watermark) == ReleaseQueue(old(Contents()), watermark)
        invariant released == |old(Contents())| - |Contents()|
        decreases count
      {
        assert Contents()[0] == Slot(head);
        DropHead();
        released := released + 1;
      }
      if count > 0 {
        assert Contents()[0] == Slot(head);
      }
    }

    method ReleaseOne() returns (ok: bool)
      requires Valid()
      modifies Repr
      ensures Valid() && ok == (old(Contents()) != [])
      ensures Contents() == if ok then old(Contents())[1..] else old(Contents())
    {
      if count == 0 {
        return false;
      }
      DropHead();
      return true;
    }

    /** `append_evict_acked`: only an ACKed, unprotected head ever makes room. */
    method AppendEvictAcked(sequence: nat, data: seq<byte>, acked: int, isGuarded: bool, key: int)
      returns (outcome: Outcome)
      requires Valid()
      modifies Repr
      ensures Valid()
      ensures var q, r := old(Contents()), Rec(sequence, data, isGuarded, key);
              var first := AppendOutcome(q, capacity, slotSize, r);
              if first == Full && !q[0].guarded && q[0].sequence <= acked
              then outcome == Appended && Contents() == q[1..] + [r]
              else outcome == first && Contents() == AppendQueue(q, capacity, slotSize, r)
    {
      ghost var q, r := Contents(), Rec(sequence, data, isGuarded, key);
      outcome := Append(sequence, data, isGuarded, key);
      if outcome == Full {
        assert Contents()[0] == Slot(head);
        if guarded[head] || sequences[head] > acked {
          return;
        }
        EvictedKeyStaysAbsent(q, key);
        DropHead();
        outcome := Append(sequence, data, isGuarded, key);
      }
    }

    /** `iter_records`, as the list of what it yields. */
    method Records() returns (q: seq<Rec>)
      requires Valid()
      ensures q == Contents()
    {
      q := [];
      var logical := 0;
      while logical < count
        invariant logical <= count
        invariant q == Contents()[..logical]
      {
        var index := Index(logical);
        var start := index * slotSize;
        SlotsApart(index, capacity, slotSize);
        assert Contents()[logical] == Slot(index);
        q := q + [Rec(sequences[index], storage[start..start + lengths[index]], guarded[index], replaceKeys[index])];
        logical := logical + 1;
      }
    }
  }

  lemma EvictedKeyStaysAbsent(q: seq<Rec>, key: int)
    requires q != [] && (key >= 0 ==> FindKey(q, key) == |q|)
    ensures key >= 0 ==> FindKey(q[1..], key) == |q| - 1
  {
  }
}
