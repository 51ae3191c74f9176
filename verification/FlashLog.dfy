/**
 The wear-levelled state log of `src/Flash_saves.cpp`: 320 two-word slots on ten flash
 pages, written round robin, each entry tagged with a wrapping 16-bit sequence number.
 */
module FlashLog {
  import opened Arithmetic

  const ERASED: bv32 := 0xE339E339
  const ALL_ONES: bv32 := 0xFFFFFFFF
  const STA_TAG: bv32 := 0xA5
  const MAGIC_STA: bv32 := 0x31415453
  const PAGES: nat := 10
  const SLOTS_PER_PAGE: nat := 32
  const TOTAL_SLOTS: nat := 320
  const WORDS_PER_PAGE: nat := 64
  const TOTAL_WORDS: nat := 640
  const NO_CHANNEL: bv8 := 0xFF

  // ----- One entry: a tagged word and its masked copy -----

  function Pack(sequence: bv16, channel: bv8): bv32 {
    (STA_TAG << 24) | ((sequence as bv32) << 8) | (channel as bv32)
  }

  function Mask(w: bv32): bv32 { w ^ MAGIC_STA }

  predicate Blank(w: bv32) { w == ERASED || w == ALL_ONES }

  /** The three tests of the boot scan. */
  predicate ValidPair(w0: bv32, w1: bv32) {
    !(Blank(w0) && Blank(w1)) && w0 >> 24 == STA_TAG && w0 ^ w1 == MAGIC_STA
  }

  function SequenceOf(w0: bv32): bv16 { ((w0 >> 8) & 0xFFFF) as bv16 }

  function ChannelOf(w0: bv32): bv8 { (w0 & 0xFF) as bv8 }

  lemma PackedFields(sequence: bv16, channel: bv8)
    ensures var w := Pack(sequence, channel);
            w >> 24 == STA_TAG && SequenceOf(w) == sequence && ChannelOf(w) == channel
  {
  }

  lemma MaskedPairIsValid(w: bv32)
    requires w >> 24 == STA_TAG
    ensures ValidPair(w, Mask(w))
  {
    assert w != ERASED && w != ALL_ONES;
    assert w ^ (w ^ MAGIC_STA) == MAGIC_STA;
  }

  /** A half-written entry is never accepted: the mask of a tagged word is not an erased word. */
  lemma TornPairIsInvalid(w: bv32)
    ensures !ValidPair(w, ERASED)
  {
    if w >> 24 == STA_TAG {
      assert (w ^ ERASED) >> 24 == 0x46;
      assert MAGIC_STA >> 24 == 0x31;
    }
  }

  // ----- Wrapping sequence numbers -----

  function Next16(a: bv16): bv16 { a + 1 }

  function Add16(a: bv16, b: bv16): bv16 { a + b }

  /** The 16-bit tag of the k-th entry ever written. */
  function Seq16(k: nat): bv16 {
    if k == 0 then 0 else Next16(Seq16(k - 1))
  }

  /** `(int16_t)(a - b) > 0`. */
  predicate Newer(a: bv16, b: bv16) { 0 < a - b < 0x8000 }

  lemma NextAdds(a: bv16, b: bv16)
    ensures Next16(Add16(a, b)) == Add16(a, Next16(b)) && Add16(a, 0) == a
  {
  }

  lemma {:induction false} SeqAdds(k: nat, d: nat)
    ensures Seq16(k + d) == Add16(Seq16(k), Seq16(d))
  {
    hide Next16, Add16;
    if d > 0 {
      SeqAdds(k, d - 1);
      NextAdds(Seq16(k), Seq16(d - 1));
    } else {
      NextAdds(Seq16(k), 0);
    }
  }

  function Pow2(j: nat): nat { if j == 0 then 1 else 2 * Pow2(j - 1) }

  function Limit16(j: nat): bv16 {
    if j == 0 then 1 else if j == 1 then 2 else if j == 2 then 4 else if j == 3 then 8 else if j == 4 then 0x10
    else if j == 5 then 0x20 else if j == 6 then 0x40 else if j == 7 then 0x80 else if j == 8 then 0x100 else 0x200
  }

  lemma LimitDoubles(j: nat)
    requires 0 < j <= 9
    ensures Limit16(j) == Add16(Limit16(j - 1), Limit16(j - 1)) && Limit16(j - 1) <= 0x100
  {
  }

  lemma DoubleBelow(x: bv16, r: bv16, p: bv16)
    requires x < p <= 0x100 && (r == 0 || r == 1)
    ensures Add16(Add16(x, x), r) < Add16(p, p)
    ensures x != 0 || r != 0 ==> Add16(Add16(x, x), r) != 0
  {
  }

  /** Distances below 2^j keep their tag distance below 2^j, and non-zero. */
  lemma {:induction false} SeqBelow(d: nat, j: nat)
    requires j <= 9 && d < Pow2(j)
    ensures Seq16(d) < Limit16(j)
    ensures d > 0 ==> Seq16(d) != 0
    decreases j
  {
    if j > 0 {
      hide Add16, Limit16, Next16;
      var e, r := d / 2, d % 2;
      SeqBelow(e, j - 1);
      SeqAdds(e, e);
      SeqAdds(2 * e, r);
      assert Seq16(r) == if r == 0 then 0 else 1 by { OneIsOne(); }
      LimitDoubles(j);
      DoubleBelow(Seq16(e), Seq16(r), Limit16(j - 1));
    }
  }

  lemma OneIsOne()
    ensures Seq16(0) == 0 && Seq16(1) == 1
  {
  }

  lemma NewerByDistance(a: bv16, d: bv16)
    requires 0 < d < 0x200
    ensures Newer(Add16(a, d), a) && !Newer(a, Add16(a, d))
  {
  }

  /**
   Serial comparison orders any two entries less than 320 writes apart, through the wrap of
   the 16-bit tag.
   */
  lemma SerialOrder(a: nat, b: nat)
    requires a < b + TOTAL_SLOTS && b < a + TOTAL_SLOTS
    ensures Newer(Seq16(a), Seq16(b)) <==> a > b
  {
    hide Newer, Seq16, Add16;
    assert Pow2(9) == 512 by {
      assert Pow2(3) == 8 && Pow2(5) == 4 * Pow2(3) && Pow2(7) == 4 * Pow2(5);
    }
    if a > b {
      SeqBelow(a - b, 9);
      SeqAdds(b, a - b);
      LimitTop();
      NewerByDistance(Seq16(b), Seq16(a - b));
    } else if a < b {
      SeqBelow(b - a, 9);
      SeqAdds(a, b - a);
      LimitTop();
      NewerByDistance(Seq16(a), Seq16(b - a));
    } else {
      NotNewer(Seq16(a));
    }
  }

  lemma LimitTop()
    ensures Limit16(9) == 0x200
  {
  }

  lemma NotNewer(a: bv16)
    ensures !Newer(a, a)
  {
  }

  // ----- The log: slots, and the writes they stand for -----

  /** The number of the write that slot s holds, if it is the latest to pass there. */
  function Occupant(n: nat, s: nat): int
    requires s < TOTAL_SLOTS
  {
    n - 1 - (n + TOTAL_SLOTS - 1 - s) % TOTAL_SLOTS
  }

  lemma OccupantFacts(n: nat, s: nat)
    requires s < TOTAL_SLOTS
    ensures n - TOTAL_SLOTS <= Occupant(n, s) < n
    ensures Occupant(n, s) == n - 1 <==> s == (n + TOTAL_SLOTS - 1) % TOTAL_SLOTS
    ensures s == n % TOTAL_SLOTS ==> Occupant(n, s) == n - TOTAL_SLOTS && Occupant(n + 1, s) == n
    ensures s != n % TOTAL_SLOTS ==> Occupant(n + 1, s) == Occupant(n, s)
  {
  }

  function EntryWord(h: seq<bv8>, k: nat): bv32
    requires k < |h|
  {
    Pack(Seq16(k), h[k])
  }

  /** A slot is empty or half-written, or holds the entry that belongs there. */
  ghost predicate SlotOk(w: seq<bv32>, h: seq<bv8>, s: nat)
    requires |w| == TOTAL_WORDS && s < TOTAL_SLOTS
  {
    || w[2 * s + 1] == ERASED
    || (Occupant(|h|, s) >= 0 && w[2 * s] == EntryWord(h, Occupant(|h|, s)) && w[2 * s + 1] == Mask(w[2 * s]))
  }

  /** No slot of the image contradicts the writes `h`; any entry may be missing. */
  ghost predicate Sane(w: seq<bv32>, h: seq<bv8>) {
    |w| == TOTAL_WORDS && forall s :: 0 <= s < TOTAL_SLOTS ==> SlotOk(w, h, s)
  }

  /** The flash image stands for the writes `h`: the newest entry is there, nothing is wrong. */
  ghost predicate Good(w: seq<bv32>, h: seq<bv8>) {
    Sane(w, h) && (h != [] ==> w[2 * ((|h| - 1) % TOTAL_SLOTS) + 1] != ERASED)
  }

  function LastOf(h: seq<bv8>): bv8 { if h == [] then NO_CHANNEL else h[|h| - 1] }

  // ----- The boot scan -----

  datatype Best = Best(have: bool, sequence: bv16, channel: bv8, slot: nat)

  function ScanSlot(w: seq<bv32>, s: nat, best: Best): Best
    requires |w| == TOTAL_WORDS && s < TOTAL_SLOTS
  {
    var w0, w1 := w[2 * s], w[2 * s + 1];
    if ValidPair(w0, w1) && (!best.have || Newer(SequenceOf(w0), best.sequence))
    then Best(true, SequenceOf(w0), ChannelOf(w0), s) else best
  }

  /** The scan of the first `upto` slots. */
  function ScanUpTo(w: seq<bv32>, upto: nat): Best
    requires |w| == TOTAL_WORDS && upto <= TOTAL_SLOTS
  {
    if upto == 0 then Best(false, 0, NO_CHANNEL, 0) else ScanSlot(w, upto - 1, ScanUpTo(w, upto - 1))
  }

  /** The channel a boot reads from an image. */
  function Read(w: seq<bv32>): bv8
    requires |w| == TOTAL_WORDS
  {
    ScanUpTo(w, TOTAL_SLOTS).channel
  }

  /** The latest of n writes whose entry is complete in the first `upto` slots; -1 if none is. */
  function Newest(w: seq<bv32>, n: nat, upto: nat): int
    requires |w| == TOTAL_WORDS && upto <= TOTAL_SLOTS
  {
    if upto == 0 then -1
    else
      var k := Newest(w, n, upto - 1);
      if w[2 * (upto - 1) + 1] != ERASED && Occupant(n, upto - 1) > k then Occupant(n, upto - 1) else k
  }

  function ValueOf(h: seq<bv8>, k: int): bv8
    requires k < |h|
  {
    if k < 0 then NO_CHANNEL else h[k]
  }

  lemma SlotIsValidIfWritten(w: seq<bv32>, h: seq<bv8>, s: nat)
    requires |w| == TOTAL_WORDS && s < TOTAL_SLOTS && SlotOk(w, h, s)
    ensures ValidPair(w[2 * s], w[2 * s + 1]) <==> w[2 * s + 1] != ERASED
    ensures w[2 * s + 1] != ERASED ==>
              var k := Occupant(|h|, s);
              k >= 0 && SequenceOf(w[2 * s]) == Seq16(k) && ChannelOf(w[2 * s]) == h[k]
  {
    hide ValidPair, Pack, SequenceOf, ChannelOf, Mask, Seq16;
    OccupantFacts(|h|, s);
    TornPairIsInvalid(w[2 * s]);
    if w[2 * s + 1] != ERASED {
      var k := Occupant(|h|, s);
      PackedFields(Seq16(k), h[k]);
      MaskedPairIsValid(w[2 * s]);
    }
  }

  /** What the scan has found after some slots: the latest write complete among them. */
  ghost predicate Agrees(best: Best, h: seq<bv8>, k: int) {
    && k < |h| && (best.have <==> k >= 0)
    && (if best.have
        then best.slot < TOTAL_SLOTS && Occupant(|h|, best.slot) == k && best.sequence == Seq16(k) && best.channel == h[k]
        else best.channel == NO_CHANNEL)
  }

  lemma ScanSlotAgrees(w: seq<bv32>, h: seq<bv8>, s: nat, best: Best, k: int)
    requires |w| == TOTAL_WORDS && s < TOTAL_SLOTS && SlotOk(w, h, s) && Agrees(best, h, k)
    ensures Agrees(ScanSlot(w, s, best), h, if w[2 * s + 1] != ERASED && Occupant(|h|, s) > k then Occupant(|h|, s) else k)
  {
    hide ValidPair, SequenceOf, ChannelOf, Newer, Seq16, Occupant, SlotOk;
    SlotIsValidIfWritten(w, h, s);
    OccupantFacts(|h|, s);
    if best.have && w[2 * s + 1] != ERASED {
      OccupantFacts(|h|, best.slot);
      SerialOrder(Occupant(|h|, s), k);
    }
  }

  lemma {:induction false} ScanAgrees(w: seq<bv32>, h: seq<bv8>, upto: nat)
    requires Sane(w, h) && upto <= TOTAL_SLOTS
    ensures Agrees(ScanUpTo(w, upto), h, Newest(w, |h|, upto))
  {
    hide SlotOk, ScanSlot, Agrees, Occupant;
    if upto > 0 {
      ScanAgrees(w, h, upto - 1);
      ScanSlotAgrees(w, h, upto - 1, ScanUpTo(w, upto - 1), Newest(w, |h|, upto - 1));
    } else {
      NothingAgrees(h);
    }
  }

  lemma NothingAgrees(h: seq<bv8>)
    ensures Agrees(Best(false, 0, NO_CHANNEL, 0), h, -1)
  {
  }

  /** A boot reads the latest write whose entry is complete. */
  lemma ReadIsNewest(w: seq<bv32>, h: seq<bv8>)
    requires Sane(w, h)
    ensures Newest(w, |h|, TOTAL_SLOTS) < |h| && Read(w) == ValueOf(h, Newest(w, |h|, TOTAL_SLOTS))
  {
    hide SlotOk, ScanUpTo, Newest, Occupant, Seq16;
    ScanAgrees(w, h, TOTAL_SLOTS);
  }

  /** The greatest occupant that is there is the newest. */
  lemma {:induction false} NewestIs(w: seq<bv32>, n: nat, upto: nat, k: int)
    requires |w| == TOTAL_WORDS && upto <= TOTAL_SLOTS && k >= -1
    requires forall s :: 0 <= s < upto && w[2 * s + 1] != ERASED ==> Occupant(n, s) <= k
    ensures Newest(w, n, upto) <= k
    ensures (exists s :: 0 <= s < upto && w[2 * s + 1] != ERASED && Occupant(n, s) == k) ==> Newest(w, n, upto) == k
  {
    hide Occupant;
    if upto > 0 {
      NewestIs(w, n, upto - 1, k);
    }
  }

  lemma {:induction false} NewestAgrees(w: seq<bv32>, w': seq<bv32>, n: nat, upto: nat)
    requires |w| == |w'| == TOTAL_WORDS && upto <= TOTAL_SLOTS
    requires forall s :: 0 <= s < upto ==> w'[2 * s + 1] == w[2 * s + 1]
    ensures Newest(w', n, upto) == Newest(w, n, upto)
  {
    hide Occupant;
    if upto > 0 {
      NewestAgrees(w, w', n, upto - 1);
    }
  }

  lemma LastSlot(n: nat)
    requires n > 0
    ensures var s := (n - 1) % TOTAL_SLOTS; (n + TOTAL_SLOTS - 1) % TOTAL_SLOTS == s && (s + 1) % TOTAL_SLOTS == n % TOTAL_SLOTS
  {
    var q, s := (n - 1) / TOTAL_SLOTS, (n - 1) % TOTAL_SLOTS;
    DivisionIsUnique(n + TOTAL_SLOTS - 1, TOTAL_SLOTS, q + 1, s);
    if s + 1 < TOTAL_SLOTS {
      DivisionIsUnique(n, TOTAL_SLOTS, q, s + 1);
    } else {
      DivisionIsUnique(n, TOTAL_SLOTS, q + 1, 0);
    }
  }

  /** In an intact log the latest complete entry is the last write. */
  lemma GoodNewest(w: seq<bv32>, h: seq<bv8>)
    requires Good(w, h)
    ensures Newest(w, |h|, TOTAL_SLOTS) == |h| - 1
  {
    hide SlotOk, Occupant, Newest;
    forall s: nat | s < TOTAL_SLOTS
      ensures w[2 * s + 1] != ERASED ==> Occupant(|h|, s) <= |h| - 1
    {
      OccupantFacts(|h|, s);
    }
    if h != [] {
      var s := (|h| - 1) % TOTAL_SLOTS;
      LastSlot(|h|);
      OccupantFacts(|h|, s);
      assert w[2 * s + 1] != ERASED && Occupant(|h|, s) == |h| - 1;
    }
    NewestIs(w, |h|, TOTAL_SLOTS, |h| - 1);
    if h == [] {
      NewestAtLeast(w, 0, TOTAL_SLOTS);
    }
  }

  lemma {:induction false} NewestAtLeast(w: seq<bv32>, n: nat, upto: nat)
    requires |w| == TOTAL_WORDS && upto <= TOTAL_SLOTS
    ensures Newest(w, n, upto) >= -1
  {
    if upto > 0 {
      NewestAtLeast(w, n, upto - 1);
    }
  }

  /** So a boot reads the last write, and goes on behind it with the next tag. */
  lemma ScanFindsNewest(w: seq<bv32>, h: seq<bv8>)
    requires Good(w, h)
    ensures Read(w) == LastOf(h)
    ensures var best := ScanUpTo(w, TOTAL_SLOTS);
            && (best.have <==> h != [])
            && (h != [] ==> Next16(best.sequence) == Seq16(|h|) && (best.slot + 1) % TOTAL_SLOTS == |h| % TOTAL_SLOTS)
  {
    hide SlotOk, Next16, ScanUpTo, Newest, Occupant;
    GoodNewest(w, h);
    ScanAgrees(w, h, TOTAL_SLOTS);
    if h != [] {
      var best := ScanUpTo(w, TOTAL_SLOTS);
      OccupantFacts(|h|, best.slot);
      LastSlot(|h|);
    }
  }

  // ----- Writing: the flash images after each physical operation -----

  /** The images left by the operations of a step, and whether the step succeeded. */
  datatype Steps = Steps(images: seq<seq<bv32>>, ok: bool)

  function Final(w: seq<bv32>, images: seq<seq<bv32>>): seq<bv32> {
    if images == [] then w else images[|images| - 1]
  }

  /**
   `flash_word_prog_std`: nothing to do if the word is right; an erased word takes the value;
   any other word refuses it.
   */
  function ProgWord(w: seq<bv32>, a: nat, data: bv32): Steps
    requires a < |w|
  {
    if w[a] == data then Steps([], true)
    else if w[a] == ERASED then Steps([w[a := data]], true)
    else Steps([], false)
  }

  /** `flash_prog_words` of one entry. */
  function ProgPair(w: seq<bv32>, a: nat, w0: bv32, w1: bv32): Steps
    requires a + 1 < |w|
  {
    var first := ProgWord(w, a, w0);
    if !first.ok then first
    else
      var second := ProgWord(Final(w, first.images), a + 1, w1);
      Steps(first.images + second.images, second.ok)
  }

  function ErasePage(w: seq<bv32>, page: nat): (e: seq<bv32>)
    requires |w| == TOTAL_WORDS && page < PAGES
    ensures |e| == |w|
    ensures forall a :: 0 <= a < |w| ==> e[a] == if a / WORDS_PER_PAGE == page then ERASED else w[a]
  {
    seq(|w|, a requires 0 <= a < |w| => if a / WORDS_PER_PAGE == page then ERASED else w[a])
  }

  /** The flash part of `Flash_AMS_state_write` for the next entry. */
  function WriteEntry(w: seq<bv32>, n: nat, channel: bv8): Steps
    requires |w| == TOTAL_WORDS
  {
    var slot := n % TOTAL_SLOTS;
    var w0 := Pack(Seq16(n), channel);
    var tried := ProgPair(w, 2 * slot, w0, Mask(w0));
    if tried.ok then tried
    else
      var e := ErasePage(Final(w, tried.images), slot / SLOTS_PER_PAGE);
      var again := ProgPair(e, 2 * slot, w0, Mask(w0));
      Steps(tried.images + [e] + again.images, again.ok)
  }

  predicate Erases(w: seq<bv32>, n: nat, channel: bv8)
    requires |w| == TOTAL_WORDS
  {
    var w0 := Pack(Seq16(n), channel);
    !ProgPair(w, 2 * (n % TOTAL_SLOTS), w0, Mask(w0)).ok
  }

  // ----- What each image stands for -----

  /** Whatever the first word of the next slot holds, the log still stands for the same writes. */
  lemma FirstWordIsHarmless(w: seq<bv32>, h: seq<bv8>, v: bv32)
    requires Good(w, h) && w[2 * (|h| % TOTAL_SLOTS) + 1] == ERASED
    ensures Good(w[2 * (|h| % TOTAL_SLOTS) := v], h)
  {
    FirstWordStaysSane(w, h, v);
    hide Sane;
  }

  /** Both words in place: the log stands for one write more. */
  lemma EntryExtends(w: seq<bv32>, w': seq<bv32>, h: seq<bv8>, channel: bv8)
    requires |w| == |w'| == TOTAL_WORDS
    requires forall s :: 0 <= s < TOTAL_SLOTS && s != |h| % TOTAL_SLOTS ==>
               SlotOk(w, h, s) && w'[2 * s] == w[2 * s] && w'[2 * s + 1] == w[2 * s + 1]
    requires var slot := |h| % TOTAL_SLOTS;
             w'[2 * slot] == Pack(Seq16(|h|), channel) && w'[2 * slot + 1] == Mask(w'[2 * slot])
    ensures Good(w', h + [channel])
  {
    hide SlotOk, Pack, Seq16, Mask, Good;
    var n, slot, h' := |h|, |h| % TOTAL_SLOTS, h + [channel];
    forall s: nat | s < TOTAL_SLOTS
      ensures SlotOk(w', h', s)
    {
      if s == slot {
        NewSlotOk(w', h, channel);
      } else {
        OtherSlotOk(w, w', h, s, channel);
      }
    }
    TaggedNeverErased(Seq16(n), channel);
    GoodBySlots(w', h');
  }

  lemma GoodBySlots(w: seq<bv32>, h: seq<bv8>)
    requires |w| == TOTAL_WORDS && forall s: nat :: s < TOTAL_SLOTS ==> SlotOk(w, h, s)
    requires h != [] ==> w[2 * ((|h| - 1) % TOTAL_SLOTS) + 1] != ERASED
    ensures Good(w, h)
  {
    hide SlotOk;
  }


  lemma NewSlotOk(w: seq<bv32>, h: seq<bv8>, channel: bv8)
    requires |w| == TOTAL_WORDS
    requires var slot := |h| % TOTAL_SLOTS; w[2 * slot] == Pack(Seq16(|h|), channel) && w[2 * slot + 1] == Mask(w[2 * slot])
    ensures SlotOk(w, h + [channel], |h| % TOTAL_SLOTS)
  {
    hide Pack, Seq16, Mask, Occupant;
    OccupantFacts(|h|, |h| % TOTAL_SLOTS);
  }

  lemma OtherSlotOk(w: seq<bv32>, w': seq<bv32>, h: seq<bv8>, s: nat, channel: bv8)
    requires |w| == |w'| == TOTAL_WORDS && s < TOTAL_SLOTS && s != |h| % TOTAL_SLOTS
    requires SlotOk(w, h, s) && w'[2 * s] == w[2 * s] && w'[2 * s + 1] == w[2 * s + 1]
    ensures SlotOk(w', h + [channel], s)
  {
    hide Pack, Seq16, Mask, Occupant;
    OccupantFacts(|h|, s);
  }

  lemma TaggedNeverErased(sequence: bv16, channel: bv8)
    ensures Mask(Pack(sequence, channel)) != ERASED && Pack(sequence, channel) != ERASED
  {
    PackedFields(sequence, channel);
    TopByteDiffers(Pack(sequence, channel));
  }

  lemma TopByteDiffers(w: bv32)
    requires w >> 24 == STA_TAG
    ensures w != ERASED && Mask(w) != ERASED
  {
    TornPairIsInvalid(w);
    MaskedPairIsValid(w);
  }

  /** An erase keeps the meaning exactly when it spares the newest entry. */
  lemma EraseKeeps(w: seq<bv32>, h: seq<bv8>, page: nat)
    requires Good(w, h) && page < PAGES
    ensures Good(ErasePage(w, page), h) <==> h == [] || ((|h| - 1) % TOTAL_SLOTS) / SLOTS_PER_PAGE != page
  {
    hide Mask, Pack, Seq16, Occupant;
    var e := ErasePage(w, page);
    forall s: nat | s < TOTAL_SLOTS
      ensures SlotOk(e, h, s)
      ensures s / SLOTS_PER_PAGE == page ==> e[2 * s + 1] == ERASED
      ensures s / SLOTS_PER_PAGE != page ==> e[2 * s + 1] == w[2 * s + 1]
    {
      assert SlotOk(w, h, s);
      assert (2 * s) / WORDS_PER_PAGE == s / SLOTS_PER_PAGE && (2 * s + 1) / WORDS_PER_PAGE == s / SLOTS_PER_PAGE;
    }
    if h != [] {
      var s := (|h| - 1) % TOTAL_SLOTS;
      assert e[2 * s + 1] == if s / SLOTS_PER_PAGE == page then ERASED else w[2 * s + 1];
    }
  }

  lemma Predecessor(n: nat)
    requires n > 0
    ensures (n - 1) % TOTAL_SLOTS == if n % TOTAL_SLOTS == 0 then TOTAL_SLOTS - 1 else n % TOTAL_SLOTS - 1
    ensures n % SLOTS_PER_PAGE == (n % TOTAL_SLOTS) % SLOTS_PER_PAGE
  {
    var q, s := n / TOTAL_SLOTS, n % TOTAL_SLOTS;
    DivisionIsUnique(n, SLOTS_PER_PAGE, 10 * q + s / SLOTS_PER_PAGE, s % SLOTS_PER_PAGE);
    if s > 0 {
      DivisionIsUnique(n - 1, TOTAL_SLOTS, q, s - 1);
    } else {
      DivisionIsUnique(n - 1, TOTAL_SLOTS, q - 1, TOTAL_SLOTS - 1);
    }
  }

  lemma SamePageAsBefore(s: nat)
    requires 0 < s < TOTAL_SLOTS
    ensures (s - 1) / SLOTS_PER_PAGE == s / SLOTS_PER_PAGE <==> s % SLOTS_PER_PAGE != 0
  {
  }

  lemma NeighbourPage(n: nat)
    requires n > 0
    ensures ((n - 1) % TOTAL_SLOTS) / SLOTS_PER_PAGE == (n % TOTAL_SLOTS) / SLOTS_PER_PAGE <==> n % SLOTS_PER_PAGE != 0
  {
    Predecessor(n);
    if n % TOTAL_SLOTS > 0 {
      SamePageAsBefore(n % TOTAL_SLOTS);
    }
  }

  lemma PairTakes(w: seq<bv32>, a: nat, w0: bv32, w1: bv32)
    requires a + 1 < |w| && (w[a] == w0 || w[a] == ERASED) && (w[a + 1] == w1 || w[a + 1] == ERASED)
    ensures var steps, x := ProgPair(w, a, w0, w1), w[a := w0];
            && steps.ok && Final(w, steps.images) == x[a + 1 := w1]
            && (forall i :: i in steps.images ==> i == x || i == x[a + 1 := w1])
  {
    if w[a] == w0 {
      assert w[a := w0] == w;
    }
    var x := w[a := w0];
    if x[a + 1] == w1 {
      assert x[a + 1 := w1] == x;
    }
  }

  lemma PairRefuses(w: seq<bv32>, a: nat, w0: bv32, w1: bv32)
    requires a + 1 < |w| && w[a] != w0 && w[a] != ERASED
    ensures ProgPair(w, a, w0, w1) == Steps([], false)
  {
  }

  /** The words of the next slot: both erased, half-written, or a complete older entry. */
  lemma NextSlotWords(w: seq<bv32>, h: seq<bv8>)
    requires Good(w, h)
    ensures var a := 2 * (|h| % TOTAL_SLOTS);
            w[a + 1] == ERASED || (w[a] != ERASED && w[a + 1] == Mask(w[a]))
  {
    hide Mask, Pack, Seq16, Occupant;
    var n, slot := |h|, |h| % TOTAL_SLOTS;
    assert SlotOk(w, h, slot);
    OccupantFacts(n, slot);
    if w[2 * slot + 1] != ERASED {
      TaggedNeverErased(Seq16(Occupant(n, slot)), h[Occupant(n, slot)]);
    }
  }

  /** How a write goes, from the state of its slot. */
  lemma WriteShape(w: seq<bv32>, h: seq<bv8>, channel: bv8)
    requires Good(w, h)
    ensures var n, a := |h|, 2 * (|h| % TOTAL_SLOTS);
            var w0 := Pack(Seq16(n), channel);
            var steps := WriteEntry(w, n, channel);
            var start := if Erases(w, n, channel) then ErasePage(w, (n % TOTAL_SLOTS) / SLOTS_PER_PAGE) else w;
            && steps.ok
            && (Erases(w, n, channel) <==> w[a] != w0 && w[a] != ERASED)
            && (!Erases(w, n, channel) ==> w[a + 1] == ERASED || w[a + 1] == Mask(w0))
            && Final(w, steps.images) == start[a := w0][a + 1 := Mask(w0)]
            && (forall i :: i in steps.images ==>
                 i == start || i == start[a := w0] || i == start[a := w0][a + 1 := Mask(w0)])
            && (Erases(w, n, channel) ==> start in steps.images)
  {
    hide Pack, Mask, Seq16, SlotOk, ProgPair;
    var n := |h|;
    var slot := n % TOTAL_SLOTS;
    var a, w0 := 2 * slot, Pack(Seq16(n), channel);
    NextSlotWords(w, h);
    if w[a] == w0 || w[a] == ERASED {
      PairTakes(w, a, w0, Mask(w0));
    } else {
      PairRefuses(w, a, w0, Mask(w0));
      var e := ErasePage(w, slot / SLOTS_PER_PAGE);
      assert a / WORDS_PER_PAGE == slot / SLOTS_PER_PAGE && (a + 1) / WORDS_PER_PAGE == slot / SLOTS_PER_PAGE;
      PairTakes(e, a, w0, Mask(w0));
    }
  }

  /** A write that keeps its power always succeeds and adds exactly its entry. */
  lemma WriteCompletes(w: seq<bv32>, h: seq<bv8>, channel: bv8)
    requires Good(w, h)
    ensures WriteEntry(w, |h|, channel).ok
    ensures Good(Final(w, WriteEntry(w, |h|, channel).images), h + [channel])
  {
    hide Pack, Mask, Seq16, Occupant, WriteEntry, Erases;
    WriteShape(w, h, channel);
    var n, slot := |h|, |h| % TOTAL_SLOTS;
    var start := if Erases(w, n, channel) then ErasePage(w, slot / SLOTS_PER_PAGE) else w;
    ErasedStaysSane(w, h, slot / SLOTS_PER_PAGE);
    var w0 := Pack(Seq16(n), channel);
    EntryExtends(start, start[2 * slot := w0][2 * slot + 1 := Mask(w0)], h, channel);
  }

  /** An erase takes entries away and contradicts nothing. */
  lemma ErasedStaysSane(w: seq<bv32>, h: seq<bv8>, page: nat)
    requires Sane(w, h) && page < PAGES
    ensures Sane(ErasePage(w, page), h)
  {
    hide Mask, Pack, Seq16, Occupant;
    forall s: nat | s < TOTAL_SLOTS
      ensures SlotOk(ErasePage(w, page), h, s)
    {
      assert SlotOk(w, h, s);
      assert (2 * s) / WORDS_PER_PAGE == s / SLOTS_PER_PAGE && (2 * s + 1) / WORDS_PER_PAGE == s / SLOTS_PER_PAGE;
    }
  }

  /**
   Losing power after any operation of a write leaves the old or the new value if and only
   if the write does not have to erase the page that holds the newest entry.
   */
  lemma PowerLossIsSafeIff(w: seq<bv32>, h: seq<bv8>, channel: bv8)
    requires Good(w, h)
    ensures (forall i :: i in WriteEntry(w, |h|, channel).images ==> Good(i, h) || Good(i, h + [channel]))
       <==> !(Erases(w, |h|, channel) && |h| % SLOTS_PER_PAGE != 0)
  {
    var n, slot := |h|, |h| % TOTAL_SLOTS;
    var page, images := slot / SLOTS_PER_PAGE, WriteEntry(w, n, channel).images;
    var e, w0 := ErasePage(w, page), Pack(Seq16(n), channel);
    WriteShape(w, h, channel);
    EraseKeeps(w, h, page);
    ErasedStaysSane(w, h, page);
    hide Pack, Mask, Seq16, Occupant, WriteEntry, Erases, Good, SlotOk;
    if n > 0 {
      NeighbourPage(n);
    }
    if Erases(w, n, channel) && n % SLOTS_PER_PAGE != 0 {
      ErasedIsNotNewer(w, h, channel);
      assert e in images;
    } else {
      var start := if Erases(w, n, channel) then e else w;
      assert Good(start, h);
      EntryExtendsGood(start, h, w0, channel);
      if start[2 * slot + 1] == ERASED {
        FirstWordIsHarmless(start, h, w0);
      } else {
        SameEntryAgain(start, h, channel);
      }
    }
  }

  lemma EntryExtendsGood(w: seq<bv32>, h: seq<bv8>, w0: bv32, channel: bv8)
    requires Good(w, h) && w0 == Pack(Seq16(|h|), channel)
    ensures Good(w[2 * (|h| % TOTAL_SLOTS) := w0][2 * (|h| % TOTAL_SLOTS) + 1 := Mask(w0)], h + [channel])
  {
    hide Pack, Mask, Seq16, Occupant;
    var slot := |h| % TOTAL_SLOTS;
    EntryExtends(w, w[2 * slot := w0][2 * slot + 1 := Mask(w0)], h, channel);
  }

  /** If the slot already holds the new words, writing them again changes nothing. */
  lemma SameEntryAgain(w: seq<bv32>, h: seq<bv8>, channel: bv8)
    requires Good(w, h) && w[2 * (|h| % TOTAL_SLOTS) + 1] != ERASED
    requires var w0 := Pack(Seq16(|h|), channel);
             w[2 * (|h| % TOTAL_SLOTS)] == w0 || w[2 * (|h| % TOTAL_SLOTS)] == ERASED
    ensures w[2 * (|h| % TOTAL_SLOTS) := Pack(Seq16(|h|), channel)] == w
  {
    hide Mask, Pack, Seq16, Occupant;
    var n, slot := |h|, |h| % TOTAL_SLOTS;
    assert SlotOk(w, h, slot);
    OccupantFacts(n, slot);
    TaggedNeverErased(Seq16(Occupant(n, slot)), h[Occupant(n, slot)]);
  }

  lemma ErasedIsNotNewer(w: seq<bv32>, h: seq<bv8>, channel: bv8)
    requires Good(w, h)
    ensures !Good(ErasePage(w, (|h| % TOTAL_SLOTS) / SLOTS_PER_PAGE), h + [channel])
  {
    hide Mask, Pack, Seq16, Occupant, SlotOk;
    var slot, h' := |h| % TOTAL_SLOTS, h + [channel];
    assert (|h'| - 1) % TOTAL_SLOTS == slot && (2 * slot + 1) / WORDS_PER_PAGE == slot / SLOTS_PER_PAGE;
  }

  // ----- What the next boot reads after a power loss -----

  /** The page that the next write of the log would erase. */
  function NextPage(n: nat): (page: nat)
    ensures page < PAGES
  {
    (n % TOTAL_SLOTS) / SLOTS_PER_PAGE
  }

  /** The latest value that is complete outside that page. */
  function Survivor(w: seq<bv32>, h: seq<bv8>): bv8
    requires |w| == TOTAL_WORDS && Newest(ErasePage(w, NextPage(|h|)), |h|, TOTAL_SLOTS) < |h|
  {
    ValueOf(h, Newest(ErasePage(w, NextPage(|h|)), |h|, TOTAL_SLOTS))
  }

  /** Between the erase and the new entry a boot reads the survivor. */
  lemma ErasedReads(w: seq<bv32>, h: seq<bv8>, v: bv32)
    requires Sane(w, h)
    ensures var e, a := ErasePage(w, NextPage(|h|)), 2 * (|h| % TOTAL_SLOTS);
            && Newest(e, |h|, TOTAL_SLOTS) < |h| && e[a + 1] == ERASED
            && Read(e) == Survivor(w, h) && Read(e[a := v]) == Survivor(w, h)
  {
    hide SlotOk, Read, Newest, Sane;
    SaneLength(w, h);
    var e, slot := ErasePage(w, NextPage(|h|)), |h| % TOTAL_SLOTS;
    assert (2 * slot + 1) / WORDS_PER_PAGE == slot / SLOTS_PER_PAGE;
    ErasedStaysSane(w, h, NextPage(|h|));
    ReadIsNewest(e, h);
    FirstWordStaysSane(e, h, v);
    ReadIsNewest(e[2 * slot := v], h);
    NewestAgrees(e, e[2 * slot := v], |h|, TOTAL_SLOTS);
  }

  lemma SaneLength(w: seq<bv32>, h: seq<bv8>)
    requires Sane(w, h)
    ensures |w| == TOTAL_WORDS
  {
  }

  lemma FirstWordStaysSane(w: seq<bv32>, h: seq<bv8>, v: bv32)
    requires Sane(w, h) && w[2 * (|h| % TOTAL_SLOTS) + 1] == ERASED
    ensures Sane(w[2 * (|h| % TOTAL_SLOTS) := v], h)
  {
    hide Mask, Pack, Seq16, Occupant;
    var w' := w[2 * (|h| % TOTAL_SLOTS) := v];
    forall s: nat | s < TOTAL_SLOTS
      ensures SlotOk(w', h, s)
    {
      assert SlotOk(w, h, s);
    }
  }

  predicate OldOrNew(read: bv8, h: seq<bv8>, channel: bv8) { read == LastOf(h) || read == channel }

  /**
   After a power loss anywhere in a write, the next boot reads the old or the new value, if and
   only if the write does not have to erase the page of the newest entry, or the latest value
   outside that page happens to be one of the two.
   */
  lemma PowerLossReadsIff(w: seq<bv32>, h: seq<bv8>, channel: bv8)
    requires Good(w, h)
    ensures Newest(ErasePage(w, NextPage(|h|)), |h|, TOTAL_SLOTS) < |h|
    ensures (forall i :: i in WriteEntry(w, |h|, channel).images ==> |i| == TOTAL_WORDS && OldOrNew(Read(i), h, channel))
       <==> !(Erases(w, |h|, channel) && |h| % SLOTS_PER_PAGE != 0) || OldOrNew(Survivor(w, h), h, channel)
  {
    GoodIsSane(w, h);
    hide Pack, Mask, Seq16, Occupant, WriteEntry, Erases, Read, Newest, Survivor, Good, Sane;
    ErasedReads(w, h, Pack(Seq16(|h|), channel));
    if Erases(w, |h|, channel) && |h| % SLOTS_PER_PAGE != 0 {
      ErasingReads(w, h, channel);
      assert ErasePage(w, NextPage(|h|)) in WriteEntry(w, |h|, channel).images;
    } else {
      SafeWriteReads(w, h, channel);
    }
  }

  lemma GoodIsSane(w: seq<bv32>, h: seq<bv8>)
    requires Good(w, h)
    ensures Sane(w, h) && |w| == TOTAL_WORDS
  {
    hide SlotOk;
    SaneLength(w, h);
  }

  /** The images of a write that erases: the erased page, the same with the first word, and the finished entry. */
  lemma ErasingReads(w: seq<bv32>, h: seq<bv8>, channel: bv8)
    requires |w| == TOTAL_WORDS && Good(w, h) && Erases(w, |h|, channel)
    requires Newest(ErasePage(w, NextPage(|h|)), |h|, TOTAL_SLOTS) < |h|
    ensures ErasePage(w, NextPage(|h|)) in WriteEntry(w, |h|, channel).images && Read(ErasePage(w, NextPage(|h|))) == Survivor(w, h)
    ensures forall i :: i in WriteEntry(w, |h|, channel).images ==> |i| == TOTAL_WORDS && (Read(i) == Survivor(w, h) || Read(i) == channel)
  {
    GoodIsSane(w, h);
    hide Pack, Mask, Seq16, Occupant, WriteEntry, Erases, Read, Newest, Survivor, Good, Sane;
    var images, w0, a := WriteEntry(w, |h|, channel).images, Pack(Seq16(|h|), channel), 2 * (|h| % TOTAL_SLOTS);
    var e := ErasePage(w, NextPage(|h|));
    ErasedReads(w, h, w0);
    WriteShape(w, h, channel);
    WriteCompletes(w, h, channel);
    ScanFindsNewest(e[a := w0][a + 1 := Mask(w0)], h + [channel]);
  }

  lemma SafeWriteReads(w: seq<bv32>, h: seq<bv8>, channel: bv8)
    requires |w| == TOTAL_WORDS && Good(w, h) && !(Erases(w, |h|, channel) && |h| % SLOTS_PER_PAGE != 0)
    ensures forall i :: i in WriteEntry(w, |h|, channel).images ==> |i| == TOTAL_WORDS && OldOrNew(Read(i), h, channel)
  {
    hide Pack, Mask, Seq16, Occupant, WriteEntry, Erases, Read, Good;
    PowerLossIsSafeIff(w, h, channel);
    forall i | i in WriteEntry(w, |h|, channel).images
      ensures |i| == TOTAL_WORDS && OldOrNew(Read(i), h, channel)
    {
      if Good(i, h) {
        GoodIsSane(i, h);
        ScanFindsNewest(i, h);
      } else {
        GoodIsSane(i, h + [channel]);
        ScanFindsNewest(i, h + [channel]);
      }
    }
  }


  /** The first write of the page that the next write falls into. */
  function PageStart(n: nat): nat { n - n % SLOTS_PER_PAGE }

  /** The last entry before that page is complete.  Every log that grew from a blank one is like this. */
  predicate Anchored(w: seq<bv32>, n: nat)
    requires |w| == TOTAL_WORDS
  {
    PageStart(n) > 0 ==> w[2 * ((PageStart(n) - 1) % TOTAL_SLOTS) + 1] != ERASED
  }

  /** Writes since the start of the page are in the page. */
  lemma RecentInPage(n: nat, s: nat)
    requires s < TOTAL_SLOTS && n % SLOTS_PER_PAGE != 0 && Occupant(n, s) >= PageStart(n)
    ensures s / SLOTS_PER_PAGE == NextPage(n)
  {
    OccupantIndex(n, s);
    PageOf(Occupant(n, s), s);
    PageOf(n, n % TOTAL_SLOTS);
    var q, k := n / SLOTS_PER_PAGE, Occupant(n, s);
    OccupantFacts(n, s);
    assert n == SLOTS_PER_PAGE * q + n % SLOTS_PER_PAGE;
    DivisionIsUnique(k, SLOTS_PER_PAGE, q, k - SLOTS_PER_PAGE * q);
  }

  /** Ten pages, taken in turn. */
  lemma PageOf(k: nat, s: nat)
    requires s == k % TOTAL_SLOTS
    ensures s / SLOTS_PER_PAGE == (k / SLOTS_PER_PAGE) % PAGES
  {
    var q := k / TOTAL_SLOTS;
    assert k == SLOTS_PER_PAGE * (PAGES * q + s / SLOTS_PER_PAGE) + s % SLOTS_PER_PAGE;
    DivisionIsUnique(k, SLOTS_PER_PAGE, PAGES * q + s / SLOTS_PER_PAGE, s % SLOTS_PER_PAGE);
    DivisionIsUnique(k / SLOTS_PER_PAGE, PAGES, q, s / SLOTS_PER_PAGE);
  }

  /** An occupant that exists belongs to its slot. */
  lemma OccupantIndex(n: nat, s: nat)
    requires s < TOTAL_SLOTS && Occupant(n, s) >= 0
    ensures Occupant(n, s) % TOTAL_SLOTS == s
  {
    var x := n + TOTAL_SLOTS - 1 - s;
    var q, k := x / TOTAL_SLOTS, Occupant(n, s);
    assert x == TOTAL_SLOTS * q + x % TOTAL_SLOTS;
    assert k == TOTAL_SLOTS * (q - 1) + s;
    if q > 0 {
      DivisionIsUnique(k, TOTAL_SLOTS, q - 1, s);
    }
  }

  lemma OccupantOf(n: nat, k: nat)
    requires n - TOTAL_SLOTS <= k < n
    ensures Occupant(n, k % TOTAL_SLOTS) == k
  {
    var q, s := k / TOTAL_SLOTS, k % TOTAL_SLOTS;
    var x := n + TOTAL_SLOTS - 1 - s;
    DivisionIsUnique(x, TOTAL_SLOTS, q + 1, n - 1 - k);
  }

  /** The last write before the page is in another page. */
  lemma BeforePage(n: nat)
    requires PageStart(n) > 0
    ensures ((PageStart(n) - 1) % TOTAL_SLOTS) / SLOTS_PER_PAGE != NextPage(n)
  {
    var q, k := n / SLOTS_PER_PAGE, PageStart(n) - 1;
    assert n == SLOTS_PER_PAGE * q + n % SLOTS_PER_PAGE;
    PageOf(n, n % TOTAL_SLOTS);
    PageOf(k, k % TOTAL_SLOTS);
    DivisionIsUnique(k, SLOTS_PER_PAGE, q - 1, SLOTS_PER_PAGE - 1);
    if q % PAGES == 0 {
      DivisionIsUnique(q - 1, PAGES, q / PAGES - 1, PAGES - 1);
    } else {
      DivisionIsUnique(q - 1, PAGES, q / PAGES, q % PAGES - 1);
    }
  }

  /** In such a log the survivor is the last value of the page before: up to 31 writes are forgotten. */
  lemma SurvivorIsPageBefore(w: seq<bv32>, h: seq<bv8>)
    requires Good(w, h) && Anchored(w, |h|) && |h| % SLOTS_PER_PAGE != 0
    ensures Newest(ErasePage(w, NextPage(|h|)), |h|, TOTAL_SLOTS) < |h|
    ensures Survivor(w, h) == LastOf(h[..PageStart(|h|)])
  {
    hide SlotOk, Occupant, Newest;
    var n, m, e := |h|, PageStart(|h|), ErasePage(w, NextPage(|h|));
    forall s: nat | s < TOTAL_SLOTS && e[2 * s + 1] != ERASED
      ensures Occupant(n, s) <= m - 1
    {
      assert (2 * s + 1) / WORDS_PER_PAGE == s / SLOTS_PER_PAGE;
      if Occupant(n, s) >= m {
        RecentInPage(n, s);
      }
    }
    if m > 0 {
      var s := (m - 1) % TOTAL_SLOTS;
      OccupantOf(n, m - 1);
      BeforePage(n);
      assert (2 * s + 1) / WORDS_PER_PAGE == s / SLOTS_PER_PAGE;
      assert e[2 * s + 1] != ERASED && Occupant(n, s) == m - 1;
    } else {
      NewestAtLeast(e, n, TOTAL_SLOTS);
    }
    NewestIs(e, n, TOTAL_SLOTS, m - 1);
  }

  /** A write leaves the log anchored. */
  lemma WriteStaysAnchored(w: seq<bv32>, h: seq<bv8>, channel: bv8)
    requires Good(w, h) && Anchored(w, |h|)
    ensures var w' := Final(w, WriteEntry(w, |h|, channel).images); |w'| == TOTAL_WORDS && Anchored(w', |h| + 1)
  {
    hide Pack, Mask, Seq16, Occupant, WriteEntry, SlotOk, Erases;
    var n, slot := |h|, |h| % TOTAL_SLOTS;
    WriteShape(w, h, channel);
    TaggedNeverErased(Seq16(n), channel);
    NextPageStart(n);
    if (n + 1) % SLOTS_PER_PAGE != 0 && PageStart(n) > 0 {
      var s := (PageStart(n) - 1) % TOTAL_SLOTS;
      BeforePage(n);
      assert (2 * s + 1) / WORDS_PER_PAGE == s / SLOTS_PER_PAGE && s != slot;
    }
  }

  lemma NextPageStart(n: nat)
    ensures PageStart(n + 1) == if (n + 1) % SLOTS_PER_PAGE == 0 then n + 1 else PageStart(n)
  {
  }

  // ----- Logs that no power loss has touched -----

  predicate BlankSlot(w: seq<bv32>, s: nat)
    requires |w| == TOTAL_WORDS && s < TOTAL_SLOTS
  {
    w[2 * s] == ERASED && w[2 * s + 1] == ERASED
  }

  /** A page whose first slot was never completed holds nothing in its other slots. */
  ghost predicate FilledFromTheFront(w: seq<bv32>)
    requires |w| == TOTAL_WORDS
  {
    forall t :: 0 <= t < TOTAL_SLOTS && t % SLOTS_PER_PAGE != 0 && w[WORDS_PER_PAGE * (t / SLOTS_PER_PAGE) + 1] == ERASED
      ==> BlankSlot(w, t)
  }

  /** The rest of the page being filled is blank. */
  ghost predicate RestBlank(w: seq<bv32>, n: nat)
    requires |w| == TOTAL_WORDS
  {
    forall t :: n % SLOTS_PER_PAGE != 0 && n % TOTAL_SLOTS <= t < TOTAL_SLOTS && t / SLOTS_PER_PAGE == (n % TOTAL_SLOTS) / SLOTS_PER_PAGE
      ==> BlankSlot(w, t)
  }

  ghost predicate Healthy(w: seq<bv32>, h: seq<bv8>) {
    Good(w, h) && FilledFromTheFront(w) && RestBlank(w, |h|)
  }

  /** A flash that was never written. */
  function Fresh(): (w: seq<bv32>)
    ensures |w| == TOTAL_WORDS && forall a :: 0 <= a < |w| ==> w[a] == ERASED
  {
    seq(TOTAL_WORDS, _ => ERASED)
  }

  lemma FreshIsHealthy()
    ensures Healthy(Fresh(), [])
  {
  }

  /** In a healthy log a write erases at most once per page, and never the newest entry. */
  lemma HealthyWriteErasesAtPageStart(w: seq<bv32>, h: seq<bv8>, channel: bv8)
    requires Healthy(w, h)
    ensures Erases(w, |h|, channel) ==> |h| % SLOTS_PER_PAGE == 0
  {
    WriteShape(w, h, channel);
    hide Pack, Mask, Seq16, Occupant, WriteEntry, Good, FilledFromTheFront;
    if |h| % SLOTS_PER_PAGE != 0 {
      assert BlankSlot(w, |h| % TOTAL_SLOTS);
    }
  }

  /**
   So after one power loss, at any word or erase of any write to a healthy log, the log stands
   for the old or the new history, and the next boot reads the old or the new value.
   */
  lemma HealthyPowerLossIsSafe(w: seq<bv32>, h: seq<bv8>, channel: bv8)
    requires Healthy(w, h)
    ensures forall i :: i in WriteEntry(w, |h|, channel).images ==> Good(i, h) || Good(i, h + [channel])
    ensures forall i :: i in WriteEntry(w, |h|, channel).images ==> |i| == TOTAL_WORDS && OldOrNew(Read(i), h, channel)
  {
    hide Good, WriteEntry, Erases, FilledFromTheFront, RestBlank, OldOrNew, Survivor;
    HealthyWriteErasesAtPageStart(w, h, channel);
    PowerLossIsSafeIff(w, h, channel);
    PowerLossReadsIff(w, h, channel);
  }

  /** One lap later the tag has moved on. */
  lemma LapDiffers(n: nat, channel: bv8, earlier: bv8)
    requires n >= TOTAL_SLOTS
    ensures Pack(Seq16(n), channel) != Pack(Seq16(n - TOTAL_SLOTS), earlier)
  {
    hide Pack, Seq16, Newer;
    PackedFields(Seq16(n), channel);
    PackedFields(Seq16(n - TOTAL_SLOTS), earlier);
    LapOrder(n - TOTAL_SLOTS);
    NotNewer(Seq16(n));
  }

  lemma LapOrder(k: nat)
    ensures Newer(Seq16(k + TOTAL_SLOTS), Seq16(k))
  {
    hide Newer, Seq16, Add16;
    assert Pow2(9) == 512 by {
      assert Pow2(3) == 8 && Pow2(5) == 4 * Pow2(3) && Pow2(7) == 4 * Pow2(5);
    }
    SeqBelow(TOTAL_SLOTS, 9);
    SeqAdds(k, TOTAL_SLOTS);
    LimitTop();
    NewerByDistance(Seq16(k), Seq16(TOTAL_SLOTS));
  }

  /** A complete entry in the next slot is an older one, so its first word is not the new one. */
  lemma NextSlotIsOlder(w: seq<bv32>, h: seq<bv8>, channel: bv8)
    requires Good(w, h) && w[2 * (|h| % TOTAL_SLOTS) + 1] != ERASED
    ensures Erases(w, |h|, channel)
  {
    hide Pack, Mask, Seq16, Occupant, WriteEntry;
    var n, slot := |h|, |h| % TOTAL_SLOTS;
    assert SlotOk(w, h, slot);
    OccupantFacts(n, slot);
    NextSlotWords(w, h);
    LapDiffers(n, channel, h[n - TOTAL_SLOTS]);
    PairRefuses(w, 2 * slot, Pack(Seq16(n), channel), Mask(Pack(Seq16(n), channel)));
  }

  lemma HealthyPageIsStarted(w: seq<bv32>, h: seq<bv8>)
    requires Healthy(w, h) && |h| % SLOTS_PER_PAGE != 0
    ensures w[WORDS_PER_PAGE * ((|h| % TOTAL_SLOTS) / SLOTS_PER_PAGE) + 1] != ERASED
  {
    hide SlotOk;
    var last := (|h| - 1) % TOTAL_SLOTS;
    NeighbourPage(|h|);
    if last % SLOTS_PER_PAGE != 0 {
      assert !BlankSlot(w, last);
    } else {
      assert 2 * last + 1 == WORDS_PER_PAGE * (last / SLOTS_PER_PAGE) + 1;
    }
  }

  /** A write that keeps its power keeps the log healthy. */
  lemma HealthyWriteStaysHealthy(w: seq<bv32>, h: seq<bv8>, channel: bv8)
    requires Healthy(w, h)
    ensures Healthy(Final(w, WriteEntry(w, |h|, channel).images), h + [channel])
  {
    hide Pack, Mask, Seq16, Occupant, WriteEntry, SlotOk;
    var n, slot := |h|, |h| % TOTAL_SLOTS;
    var page, w0 := slot / SLOTS_PER_PAGE, Pack(Seq16(n), channel);
    WriteCompletes(w, h, channel);
    WriteShape(w, h, channel);
    HealthyWriteErasesAtPageStart(w, h, channel);
    TaggedNeverErased(Seq16(n), channel);
    if w[2 * slot + 1] != ERASED {
      NextSlotIsOlder(w, h, channel);
    }
    if n % SLOTS_PER_PAGE != 0 {
      HealthyPageIsStarted(w, h);
    }
    hide Erases, Good, FilledFromTheFront, RestBlank;
    var start := if Erases(w, n, channel) then ErasePage(w, page) else w;
    var w' := start[2 * slot := w0][2 * slot + 1 := Mask(w0)];
    SlotMath(n);
    OtherSlots(w, slot, w0, Erases(w, n, channel));
    PageFilled(w, w', n, slot, page);
    PageRest(w, w', n, slot, page);
  }

  /** What one write does to the other slots. */
  lemma OtherSlots(w: seq<bv32>, slot: nat, w0: bv32, erased: bool)
    requires |w| == TOTAL_WORDS && slot < TOTAL_SLOTS
    ensures var page := slot / SLOTS_PER_PAGE;
            var start := if erased then ErasePage(w, page) else w;
            var w' := start[2 * slot := w0][2 * slot + 1 := Mask(w0)];
            && w'[2 * slot + 1] == Mask(w0)
            && (forall t :: 0 <= t < TOTAL_SLOTS && t != slot ==>
                 && (BlankSlot(w, t) ==> BlankSlot(w', t))
                 && (t / SLOTS_PER_PAGE == page && erased ==> BlankSlot(w', t))
                 && (t / SLOTS_PER_PAGE != page ==> w'[2 * t + 1] == w[2 * t + 1])
                 && (!erased ==> w'[2 * t + 1] == w[2 * t + 1]))
  {
    hide Mask;
    var page := slot / SLOTS_PER_PAGE;
    var start := if erased then ErasePage(w, page) else w;
    forall t: nat | t < TOTAL_SLOTS && t != slot
      ensures start[2 * t] == (if erased && t / SLOTS_PER_PAGE == page then ERASED else w[2 * t])
      ensures start[2 * t + 1] == (if erased && t / SLOTS_PER_PAGE == page then ERASED else w[2 * t + 1])
    {
      assert (2 * t) / WORDS_PER_PAGE == t / SLOTS_PER_PAGE && (2 * t + 1) / WORDS_PER_PAGE == t / SLOTS_PER_PAGE;
    }
  }

  lemma SlotMath(n: nat)
    ensures n % SLOTS_PER_PAGE == (n % TOTAL_SLOTS) % SLOTS_PER_PAGE
    ensures (n + 1) % SLOTS_PER_PAGE != 0 ==>
              (n + 1) % TOTAL_SLOTS == n % TOTAL_SLOTS + 1 && (n % TOTAL_SLOTS + 1) / SLOTS_PER_PAGE == (n % TOTAL_SLOTS) / SLOTS_PER_PAGE
    ensures n % SLOTS_PER_PAGE == 0 ==> 2 * (n % TOTAL_SLOTS) == WORDS_PER_PAGE * ((n % TOTAL_SLOTS) / SLOTS_PER_PAGE)
  {
    var s := n % TOTAL_SLOTS;
    assert (n + 1) % TOTAL_SLOTS == if s + 1 < TOTAL_SLOTS then s + 1 else 0;
    assert n % SLOTS_PER_PAGE == s % SLOTS_PER_PAGE;
  }

  lemma PageFilled(w: seq<bv32>, w': seq<bv32>, n: nat, slot: nat, page: nat)
    requires |w| == |w'| == TOTAL_WORDS && slot == n % TOTAL_SLOTS && page == slot / SLOTS_PER_PAGE
    requires FilledFromTheFront(w) && w'[2 * slot + 1] != ERASED
    requires forall t :: 0 <= t < TOTAL_SLOTS && t != slot ==>
               && (BlankSlot(w, t) ==> BlankSlot(w', t))
               && (t / SLOTS_PER_PAGE != page ==> w'[2 * t + 1] == w[2 * t + 1])
               && (n % SLOTS_PER_PAGE != 0 ==> w'[2 * t + 1] == w[2 * t + 1])
    requires n % SLOTS_PER_PAGE != 0 ==> w[WORDS_PER_PAGE * page + 1] != ERASED
    ensures FilledFromTheFront(w')
  {
    SlotMath(n);
    var front := SLOTS_PER_PAGE * page;
    assert 2 * front + 1 == WORDS_PER_PAGE * page + 1 && front / SLOTS_PER_PAGE == page;
    assert w'[WORDS_PER_PAGE * page + 1] != ERASED by {
      assert w'[2 * front + 1] != ERASED;
    }
    forall t: nat | t < TOTAL_SLOTS && t % SLOTS_PER_PAGE != 0 && w'[WORDS_PER_PAGE * (t / SLOTS_PER_PAGE) + 1] == ERASED
      ensures BlankSlot(w', t)
    {
      var f := SLOTS_PER_PAGE * (t / SLOTS_PER_PAGE);
      assert 2 * f + 1 == WORDS_PER_PAGE * (t / SLOTS_PER_PAGE) + 1 && f / SLOTS_PER_PAGE == t / SLOTS_PER_PAGE;
      assert w'[2 * f + 1] == w[2 * f + 1];
      assert BlankSlot(w, t);
    }
  }

  lemma PageRest(w: seq<bv32>, w': seq<bv32>, n: nat, slot: nat, page: nat)
    requires |w| == |w'| == TOTAL_WORDS && slot == n % TOTAL_SLOTS && page == slot / SLOTS_PER_PAGE
    requires FilledFromTheFront(w) && RestBlank(w, n)
    requires forall t :: 0 <= t < TOTAL_SLOTS && t != slot && BlankSlot(w, t) ==> BlankSlot(w', t)
    requires n % SLOTS_PER_PAGE == 0 ==>
               || w[2 * slot + 1] == ERASED
               || (forall t :: 0 <= t < TOTAL_SLOTS && t != slot && t / SLOTS_PER_PAGE == page ==> BlankSlot(w', t))
    ensures RestBlank(w', n + 1)
  {
    SlotMath(n);
    if (n + 1) % SLOTS_PER_PAGE != 0 {
      forall t: nat | slot + 1 <= t < TOTAL_SLOTS && t / SLOTS_PER_PAGE == page
        ensures BlankSlot(w', t)
      {
        if n % SLOTS_PER_PAGE != 0 {
          assert BlankSlot(w, t);
        } else if w[2 * slot + 1] == ERASED {
          FrontOnly(slot, t);
          assert BlankSlot(w, t);
        }
      }
    }
  }

  lemma FrontOnly(slot: nat, t: nat)
    requires slot % SLOTS_PER_PAGE == 0 && slot < t && t / SLOTS_PER_PAGE == slot / SLOTS_PER_PAGE
    ensures t % SLOTS_PER_PAGE != 0
  {
  }

  // ----- Runs of writes -----

  datatype Log = Log(words: seq<bv32>, history: seq<bv8>)

  /** One call of `Flash_AMS_state_write` that keeps its power: an unchanged value is not written. */
  function Save(l: Log, channel: bv8): Log
    requires |l.words| == TOTAL_WORDS
  {
    if l.history != [] && LastOf(l.history) == channel then l
    else Log(Final(l.words, WriteEntry(l.words, |l.history|, channel).images), l.history + [channel])
  }

  function PageErases(l: Log, channel: bv8): nat
    requires |l.words| == TOTAL_WORDS
  {
    if (l.history != [] && LastOf(l.history) == channel) || !Erases(l.words, |l.history|, channel) then 0 else 1
  }

  ghost predicate GoodLog(l: Log) { Good(l.words, l.history) }

  ghost predicate HealthyLog(l: Log) { Healthy(l.words, l.history) }

  function SaveAll(l: Log, channels: seq<bv8>): Log
    requires GoodLog(l)
    decreases channels
  {
    if channels == [] then l
    else
      WriteCompletes(l.words, l.history, channels[0]);
      SaveAll(Save(l, channels[0]), channels[1..])
  }

  /**
   After any run of writes from any intact log, what a boot reads is the last value written,
   through slot wrap and tag wrap.
   */
  lemma {:induction false} LogAgreesWithVariable(l: Log, channels: seq<bv8>)
    requires GoodLog(l)
    ensures GoodLog(SaveAll(l, channels))
    ensures LastOf(SaveAll(l, channels).history) == if channels == [] then LastOf(l.history) else channels[|channels| - 1]
    ensures |SaveAll(l, channels).words| == TOTAL_WORDS
    ensures Read(SaveAll(l, channels).words) == if channels == [] then Read(l.words) else channels[|channels| - 1]
    decreases channels
  {
    assert |l.words| == TOTAL_WORDS;
    hide Good, WriteEntry, Read;
    ScanFindsNewest(l.words, l.history);
    if channels != [] {
      WriteCompletes(l.words, l.history, channels[0]);
      var next := Save(l, channels[0]);
      LogAgreesWithVariable(next, channels[1..]);
      ScanFindsNewest(next.words, next.history);
    }
  }

  ghost function ErasesIn(l: Log, channels: seq<bv8>): nat
    requires GoodLog(l)
    decreases channels
  {
    if channels == [] then 0
    else
      WriteCompletes(l.words, l.history, channels[0]);
      PageErases(l, channels[0]) + ErasesIn(Save(l, channels[0]), channels[1..])
  }

  /** Pages a run of n writes starts, beginning with the from-th. */
  function PageStarts(from: nat, to: nat): int { (to + 31) / 32 - (from + 31) / 32 }

  lemma PageStartsStep(n: nat)
    ensures PageStarts(n, n) == 0
    ensures forall m: nat :: PageStarts(n, m) == PageStarts(n + 1, m) + (if n % SLOTS_PER_PAGE == 0 then 1 else 0)
  {
    assert (n + 32) / 32 == (n + 31) / 32 + if n % 32 == 0 then 1 else 0;
  }

  lemma PageStartsBound(from: nat, to: nat)
    requires from <= to
    ensures 32 * PageStarts(from, to) <= to - from + 31
  {
  }

  /** An unchanged value is not written. */
  lemma {:induction false} NoMoreThanAsked(l: Log, channels: seq<bv8>)
    requires GoodLog(l)
    ensures |SaveAll(l, channels).history| <= |l.history| + |channels|
    decreases channels
  {
    if channels != [] {
      WriteCompletes(l.words, l.history, channels[0]);
      hide GoodLog, WriteEntry;
      NoMoreThanAsked(Save(l, channels[0]), channels[1..]);
    }
  }

  /** Without a power loss there is at most one page erase per 32 entries written, and one more. */
  lemma WearIsLevelled(l: Log, channels: seq<bv8>)
    requires HealthyLog(l)
    ensures |l.history| <= |SaveAll(l, channels).history| <= |l.history| + |channels|
    ensures 32 * ErasesIn(l, channels) <= |SaveAll(l, channels).history| - |l.history| + 31
  {
    hide Good, FilledFromTheFront, RestBlank, SaveAll, ErasesIn, PageStarts;
    NoMoreThanAsked(l, channels);
    ErasesArePageStarts(l, channels);
    PageStartsBound(|l.history|, |SaveAll(l, channels).history|);
  }

  /** Only the first write of a page ever erases. */
  lemma {:induction false} ErasesArePageStarts(l: Log, channels: seq<bv8>)
    requires HealthyLog(l)
    ensures HealthyLog(SaveAll(l, channels))
    ensures |l.history| <= |SaveAll(l, channels).history|
    ensures ErasesIn(l, channels) <= PageStarts(|l.history|, |SaveAll(l, channels).history|)
    decreases channels
  {
    assert |l.words| == TOTAL_WORDS;
    hide Good, FilledFromTheFront, RestBlank, WriteEntry, Erases, PageStarts;
    if channels == [] {
      PageStartsStep(|l.history|);
    } else {
      var c := channels[0];
      PageStartsStep(|l.history|);
      WriteCompletes(l.words, l.history, c);
      HealthyWriteStaysHealthy(l.words, l.history, c);
      HealthyWriteErasesAtPageStart(l.words, l.history, c);
      ErasesArePageStarts(Save(l, c), channels[1..]);
    }
  }

  // ----- A repair leaves a trap one lap later -----

  /** No slot is half-written. */
  ghost predicate TornFree(w: seq<bv32>)
    requires |w| == TOTAL_WORDS
  {
    forall t :: 0 <= t < TOTAL_SLOTS && w[2 * t + 1] == ERASED ==> BlankSlot(w, t)
  }

  /** Write n0 sits in mid-page, and the slots of its page not written since are blank. */
  ghost predicate Trap(w: seq<bv32>, n: nat, n0: nat)
    requires |w| == TOTAL_WORDS
  {
    var s0 := n0 % TOTAL_SLOTS;
    && w[2 * s0 + 1] != ERASED
    && forall t :: 0 <= t < TOTAL_SLOTS && t != s0 && t / SLOTS_PER_PAGE == s0 / SLOTS_PER_PAGE && Occupant(n, t) < n0 ==> BlankSlot(w, t)
  }

  /** Repairing a half-written slot in mid-page sets the trap. */
  lemma RepairSetsTrap(w: seq<bv32>, h: seq<bv8>, channel: bv8)
    requires Good(w, h) && Erases(w, |h|, channel)
    requires forall t :: 0 <= t < TOTAL_SLOTS && t != |h| % TOTAL_SLOTS && w[2 * t + 1] == ERASED ==> BlankSlot(w, t)
    ensures var w' := Final(w, WriteEntry(w, |h|, channel).images);
            |w'| == TOTAL_WORDS && Good(w', h + [channel]) && TornFree(w') && Trap(w', |h| + 1, |h|)
  {
    hide Pack, Mask, Seq16, Occupant, WriteEntry, SlotOk;
    var n, slot := |h|, |h| % TOTAL_SLOTS;
    var w0 := Pack(Seq16(n), channel);
    WriteCompletes(w, h, channel);
    WriteShape(w, h, channel);
    TaggedNeverErased(Seq16(n), channel);
    hide Good, Erases;
    OtherSlots(w, slot, w0, true);
    TornFreeAfter(w, slot, w0, true);
  }

  lemma TornFreeAfter(w: seq<bv32>, slot: nat, w0: bv32, erased: bool)
    requires |w| == TOTAL_WORDS && slot < TOTAL_SLOTS && Mask(w0) != ERASED
    requires forall t :: 0 <= t < TOTAL_SLOTS && t != slot && w[2 * t + 1] == ERASED ==> BlankSlot(w, t)
    ensures var start := if erased then ErasePage(w, slot / SLOTS_PER_PAGE) else w;
            TornFree(start[2 * slot := w0][2 * slot + 1 := Mask(w0)])
  {
    OtherSlots(w, slot, w0, erased);
    var start := if erased then ErasePage(w, slot / SLOTS_PER_PAGE) else w;
    var w' := start[2 * slot := w0][2 * slot + 1 := Mask(w0)];
    hide Mask;
    forall t: nat | t < TOTAL_SLOTS && w'[2 * t + 1] == ERASED
      ensures BlankSlot(w', t)
    {
      if erased && t / SLOTS_PER_PAGE == slot / SLOTS_PER_PAGE {
        assert t != slot;
      } else {
        assert w'[2 * t + 1] == w[2 * t + 1];
        assert BlankSlot(w, t);
      }
    }
  }

  /** Ordinary writes leave it set for a whole lap. */
  lemma TrapStays(w: seq<bv32>, h: seq<bv8>, channel: bv8, n0: nat)
    requires Good(w, h) && TornFree(w) && Trap(w, |h|, n0) && n0 < |h| < n0 + TOTAL_SLOTS
    ensures var w' := Final(w, WriteEntry(w, |h|, channel).images);
            |w'| == TOTAL_WORDS && Good(w', h + [channel]) && TornFree(w') && Trap(w', |h| + 1, n0)
  {
    hide Pack, Mask, Seq16, Occupant, WriteEntry, SlotOk;
    var n, slot, s0 := |h|, |h| % TOTAL_SLOTS, n0 % TOTAL_SLOTS;
    var w0, page := Pack(Seq16(n), channel), s0 / SLOTS_PER_PAGE;
    WriteCompletes(w, h, channel);
    WriteShape(w, h, channel);
    TaggedNeverErased(Seq16(n), channel);
    OccupantFacts(n, slot);
    assert slot != s0 by { LapApart(n0, n); }
    assert slot / SLOTS_PER_PAGE == page ==> BlankSlot(w, slot);
    assert Erases(w, n, channel) ==> slot / SLOTS_PER_PAGE != page;
    hide Good, Erases;
    var erased := Erases(w, n, channel);
    OtherSlots(w, slot, w0, erased);
    TornFreeAfter(w, slot, w0, erased);
    var w' := Final(w, WriteEntry(w, n, channel).images);
    forall t: nat | t < TOTAL_SLOTS && t != s0 && t / SLOTS_PER_PAGE == page && Occupant(n + 1, t) < n0
      ensures BlankSlot(w', t)
    {
      OccupantFacts(n, t);
      assert t != slot;
      assert BlankSlot(w, t);
    }
    assert w'[2 * s0 + 1] == w[2 * s0 + 1];
  }

  lemma LapApart(n0: nat, n: nat)
    requires n0 < n < n0 + TOTAL_SLOTS
    ensures n % TOTAL_SLOTS != n0 % TOTAL_SLOTS
  {
  }

  function WriteAll(w: seq<bv32>, h: seq<bv8>, channels: seq<bv8>): seq<bv32>
    requires Good(w, h)
    decreases channels
  {
    if channels == [] then w
    else
      WriteCompletes(w, h, channels[0]);
      WriteAll(Final(w, WriteEntry(w, |h|, channels[0]).images), h + [channels[0]], channels[1..])
  }

  /**
   A lap later a log without any half-written slot is unsafe: a power loss in the next write can
   leave the last value of the page before, up to 31 writes old, to be read.
   */
  lemma {:induction false} TrapSprings(w: seq<bv32>, h: seq<bv8>, channels: seq<bv8>, n0: nat, channel: bv8)
    requires Good(w, h) && TornFree(w) && Trap(w, |h|, n0) && Anchored(w, |h|)
    requires n0 < |h| && |h| + |channels| == n0 + TOTAL_SLOTS && n0 % SLOTS_PER_PAGE != 0
    ensures var w', h' := WriteAll(w, h, channels), h + channels;
            && Good(w', h') && TornFree(w')
            && exists i :: i in WriteEntry(w', |h'|, channel).images && |i| == TOTAL_WORDS
                           && Read(i) == LastOf(h'[..PageStart(|h'|)])
    decreases channels
  {
    hide WriteEntry, Trap, TornFree, Occupant, SlotOk, Anchored, Read;
    if channels == [] {
      assert h + channels == h;
      TrapEnd(w, h, n0, channel);
      ErasedImageReads(w, h, channel);
    } else {
      WriteCompletes(w, h, channels[0]);
      TrapStays(w, h, channels[0], n0);
      WriteStaysAnchored(w, h, channels[0]);
      hide Good;
      TrapSprings(Final(w, WriteEntry(w, |h|, channels[0]).images), h + [channels[0]], channels[1..], n0, channel);
      assert h + [channels[0]] + channels[1..] == h + channels;
    }
  }

  /** If the write erases in mid-page, one of its images reads the last value of the page before. */
  lemma ErasedImageReads(w: seq<bv32>, h: seq<bv8>, channel: bv8)
    requires Good(w, h) && Anchored(w, |h|) && Erases(w, |h|, channel) && |h| % SLOTS_PER_PAGE != 0
    ensures exists i :: i in WriteEntry(w, |h|, channel).images && |i| == TOTAL_WORDS && Read(i) == LastOf(h[..PageStart(|h|)])
  {
    hide Pack, Mask, Seq16, Occupant, WriteEntry, Erases, Read, Newest, Survivor, SlotOk, Anchored;
    WriteShape(w, h, channel);
    ErasedReads(w, h, 0);
    SurvivorIsPageBefore(w, h);
    assert ErasePage(w, NextPage(|h|)) in WriteEntry(w, |h|, channel).images;
  }

  lemma LapLater(n: nat)
    ensures (n + TOTAL_SLOTS) % TOTAL_SLOTS == n % TOTAL_SLOTS && (n + TOTAL_SLOTS) % SLOTS_PER_PAGE == n % SLOTS_PER_PAGE
  {
    DivisionIsUnique(n + TOTAL_SLOTS, TOTAL_SLOTS, n / TOTAL_SLOTS + 1, n % TOTAL_SLOTS);
    DivisionIsUnique(n + TOTAL_SLOTS, SLOTS_PER_PAGE, n / SLOTS_PER_PAGE + PAGES, n % SLOTS_PER_PAGE);
  }

  lemma TrapEnd(w: seq<bv32>, h: seq<bv8>, n0: nat, channel: bv8)
    requires Good(w, h) && Trap(w, |h|, n0) && |h| == n0 + TOTAL_SLOTS && n0 % SLOTS_PER_PAGE != 0
    ensures Erases(w, |h|, channel) && |h| % SLOTS_PER_PAGE != 0
  {
    hide Good, SlotOk, Occupant;
    LapLater(n0);
    NextSlotIsOlder(w, h, channel);
  }

  // ----- From a blank flash -----

  /** No value is followed by itself, so no write is skipped. */
  predicate Changing(before: seq<bv8>, channels: seq<bv8>) {
    && (before != [] && channels != [] ==> LastOf(before) != channels[0])
    && forall i :: 0 < i < |channels| ==> channels[i - 1] != channels[i]
  }

  lemma {:induction false} SaveAllIsWriteAll(l: Log, channels: seq<bv8>)
    requires GoodLog(l) && Changing(l.history, channels)
    ensures SaveAll(l, channels) == Log(WriteAll(l.words, l.history, channels), l.history + channels)
    decreases channels
  {
    hide Good, WriteEntry, Changing, Save, SaveAll, WriteAll;
    if channels == [] {
      NothingToSave(l);
      assert l.history + channels == l.history;
    } else {
      SaveAllUnfolds(l, channels);
      WriteAllUnfolds(l.words, l.history, channels);
      ChangingStep(l, channels);
      var next, rest := Save(l, channels[0]), channels[1..];
      SaveAllIsWriteAll(next, rest);
      assert next.history + rest == l.history + channels;
    }
  }

  lemma NothingToSave(l: Log)
    requires GoodLog(l)
    ensures SaveAll(l, []) == l && WriteAll(l.words, l.history, []) == l.words
  {
  }

  lemma SaveAllUnfolds(l: Log, channels: seq<bv8>)
    requires GoodLog(l) && channels != []
    ensures |l.words| == TOTAL_WORDS && GoodLog(Save(l, channels[0]))
    ensures SaveAll(l, channels) == SaveAll(Save(l, channels[0]), channels[1..])
  {
    WriteCompletes(l.words, l.history, channels[0]);
    hide Sane, WriteEntry;
  }

  lemma WriteAllUnfolds(w: seq<bv32>, h: seq<bv8>, channels: seq<bv8>)
    requires Good(w, h) && channels != []
    ensures |w| == TOTAL_WORDS
    ensures var w' := Final(w, WriteEntry(w, |h|, channels[0]).images);
            Good(w', h + [channels[0]]) && WriteAll(w, h, channels) == WriteAll(w', h + [channels[0]], channels[1..])
  {
    WriteCompletes(w, h, channels[0]);
    hide SlotOk, WriteEntry;
  }

  lemma ChangingStep(l: Log, channels: seq<bv8>)
    requires |l.words| == TOTAL_WORDS && channels != [] && Changing(l.history, channels)
    ensures Save(l, channels[0]) == Log(Final(l.words, WriteEntry(l.words, |l.history|, channels[0]).images), l.history + [channels[0]])
    ensures Changing(l.history + [channels[0]], channels[1..])
  {
    hide WriteEntry;
  }

  /** A blank flash after one value, and a second write that lost its power behind the first word. */
  function TornStart(first: bv8, torn: bv8): (w: seq<bv32>)
    ensures |w| == TOTAL_WORDS
  {
    Fresh()[0 := Pack(Seq16(0), first)][1 := Mask(Pack(Seq16(0), first))][2 := Pack(Seq16(1), torn)]
  }

  /** It is what these two writes leave, and a boot still reads the first value. */
  lemma TornStartIsReached(first: bv8, torn: bv8)
    ensures var w := Final(Fresh(), WriteEntry(Fresh(), 0, first).images);
            && |w| == TOTAL_WORDS && TornStart(first, torn) in WriteEntry(w, 1, torn).images
    ensures Good(TornStart(first, torn), [first]) && Read(TornStart(first, torn)) == first
  {
    hide Pack, Seq16, Mask, SlotOk, Read;
    FreshIsHealthy();
    var w0 := Pack(Seq16(0), first);
    TaggedNeverErased(Seq16(0), first);
    TaggedNeverErased(Seq16(1), torn);
    WriteCompletes(Fresh(), [], first);
    assert [] + [first] == [first];
    var w := Fresh()[0 := w0][1 := Mask(w0)];
    assert Final(Fresh(), WriteEntry(Fresh(), 0, first).images) == w by { BlankTakes(Fresh(), 0, first); }
    BlankTakes(w, 1, torn);
    FirstWordIsHarmless(w, [first], Pack(Seq16(1), torn));
    ScanFindsNewest(TornStart(first, torn), [first]);
  }

  /** Writing into a blank slot takes two steps. */
  lemma BlankTakes(w: seq<bv32>, n: nat, channel: bv8)
    requires |w| == TOTAL_WORDS && n < TOTAL_SLOTS && BlankSlot(w, n)
    ensures var w0 := Pack(Seq16(n), channel);
            WriteEntry(w, n, channel).images == [w[2 * n := w0], w[2 * n := w0][2 * n + 1 := Mask(w0)]]
  {
    hide Pack, Seq16, Mask;
    TaggedNeverErased(Seq16(n), channel);
  }

  /**
   A second power loss, while the half-written slot is repaired: the first value is forgotten,
   and a boot reads that no channel is loaded.
   */
  lemma RepairForgets(first: bv8, torn: bv8, channel: bv8)
    requires torn != channel
    ensures exists i :: i in WriteEntry(TornStart(first, torn), 1, channel).images && |i| == TOTAL_WORDS && Read(i) == NO_CHANNEL
    ensures first != NO_CHANNEL && channel != NO_CHANNEL ==>
              exists i :: i in WriteEntry(TornStart(first, torn), 1, channel).images && |i| == TOTAL_WORDS
                       && !OldOrNew(Read(i), [first], channel)
  {
    hide WriteEntry, Read, Erases, Good;
    TornStartIsReached(first, torn);
    TornStartErases(first, torn, channel);
    ErasedImageReads(TornStart(first, torn), [first], channel);
    assert [first][..0] == [];
  }

  lemma TornStartErases(first: bv8, torn: bv8, channel: bv8)
    requires torn != channel
    ensures Erases(TornStart(first, torn), 1, channel)
  {
    hide Pack, Seq16, Mask, SlotOk;
    TornStartIsReached(first, torn);
    var w := TornStart(first, torn);
    WriteShape(w, [first], channel);
    PackedFields(Seq16(1), torn);
    PackedFields(Seq16(1), channel);
    TaggedNeverErased(Seq16(1), torn);
    assert w[2] == Pack(Seq16(1), torn);
  }

  /** After the repair has succeeded the log holds two values and the trap. */
  function Repaired(first: bv8, torn: bv8, second: bv8): Log {
    Log(Final(TornStart(first, torn), WriteEntry(TornStart(first, torn), 1, second).images), [first, second])
  }

  lemma RepairedIsTrapped(first: bv8, torn: bv8, second: bv8)
    requires torn != second
    ensures var l := Repaired(first, torn, second);
            GoodLog(l) && TornFree(l.words) && Trap(l.words, 2, 1) && Anchored(l.words, 2)
  {
    hide WriteEntry, Pack, Seq16, Mask, Erases, Good, Occupant;
    var w := TornStart(first, torn);
    TornStartIsReached(first, torn);
    TornStartErases(first, torn, second);
    TaggedNeverErased(Seq16(0), first);
    assert [first] + [second] == [first, second];
    RepairSetsTrap(w, [first], second);
  }

  /**
   From a blank flash: one value, a power loss in the second write, its repair, and then a whole
   lap of undisturbed writes.  One more power loss, in the next write, and a boot can read a value
   that is neither the last one saved nor the one being written.
   */
  lemma LapAfterRepairForgets(first: bv8, torn: bv8, second: bv8, channels: seq<bv8>, channel: bv8)
    requires torn != second && |channels| == 319 && Changing([first, second], channels)
    requires channels[317] != channels[318] && channels[317] != channel
    ensures var l := Repaired(first, torn, second);
            GoodLog(l) &&
            var after := SaveAll(l, channels);
            && |after.words| == TOTAL_WORDS && TornFree(after.words) && LastOf(after.history) == channels[318]
            && exists i :: i in WriteEntry(after.words, |after.history|, channel).images && |i| == TOTAL_WORDS
                           && Read(i) == channels[317] && !OldOrNew(Read(i), after.history, channel)
  {
    hide WriteEntry, Good, Trap, TornFree, Anchored, Read, WriteAll, SaveAll;
    RepairedIsTrapped(first, torn, second);
    var l := Repaired(first, torn, second);
    SaveAllIsWriteAll(l, channels);
    TrapSprings(l.words, l.history, channels, 1, channel);
    LogAgreesWithVariable(l, channels);
    var h := [first, second] + channels;
    assert |h| == 321 && PageStart(321) == 320 && h[..320][319] == channels[317];
  }

  /** Channels 0, 1 and 2 in turn, for a lap. */
  function ThreeInTurn(): (channels: seq<bv8>)
    ensures |channels| == 319
    ensures forall i :: 0 <= i < 319 ==> channels[i] == if i % 3 == 0 then 0 else if i % 3 == 1 then 1 else 2
  {
    seq(319, i => if i % 3 == 0 then 0 else if i % 3 == 1 then 1 else 2)
  }

  /** One run that does it: channel 0 is saved, 1 is being written, and a boot can read 2. */
  lemma SomeLapForgets()
    ensures var l := Repaired(0, 1, 2);
            GoodLog(l) &&
            var after := SaveAll(l, ThreeInTurn());
            && |after.words| == TOTAL_WORDS && TornFree(after.words) && LastOf(after.history) == 0
            && exists i :: i in WriteEntry(after.words, |after.history|, 1).images && |i| == TOTAL_WORDS && Read(i) == 2
  {
    hide WriteEntry, Good, TornFree, Read;
    LapAfterRepairForgets(0, 1, 2, ThreeInTurn(), 1);
  }

  // ----- The firmware's own form -----

  datatype Outcome = Written | Unchanged | PowerLost

  class StateLog {
    /** The ten state pages of the flash. */
    const words: array<bv32>
    var seq16: bv16
    var slot: nat
    var haveSaved: bool
    var savedLoaded: bv8
    /** Flash operations left before the power fails; negative means it never does. */
    var budget: int
    /** The entries the flash stands for, and the images since the last call began. */
    ghost var history: seq<bv8>
    ghost var images: seq<seq<bv32>>

    ghost predicate Booted()
      reads this, words
    {
      && Good(words[..], history)
      && seq16 == Seq16(|history|) && slot == |history| % TOTAL_SLOTS
      && (haveSaved <==> history != []) && (haveSaved ==> savedLoaded == LastOf(history))
    }

    constructor ()
      ensures Booted() && history == [] && words[..] == Fresh() && budget < 0 && fresh(words)
    {
      words := new bv32[TOTAL_WORDS](_ => ERASED);
      seq16, slot, haveSaved, savedLoaded, budget := 0, 0, false, NO_CHANNEL, -1;
      history, images := [], [];
      new;
      assert words[..] == Fresh();
      FreshIsHealthy();
    }

    /** The word index of a slot, as `sta_slot_addr` computes it from page and offset. */
    function SlotWord(s: nat): (a: nat)
      ensures a == 2 * s
    {
      var page := s / SLOTS_PER_PAGE;
      page * WORDS_PER_PAGE + (s - page * SLOTS_PER_PAGE) * 2
    }

    /** `Flash_AMS_state_read`: scan all slots for the newest valid entry. */
    method StateRead() returns (loaded: bv8)
      requires words.Length == TOTAL_WORDS
      modifies this`seq16, this`slot, this`haveSaved, this`savedLoaded
      ensures loaded == Read(words[..]) && savedLoaded == loaded
      ensures var best := ScanUpTo(words[..], TOTAL_SLOTS);
              && haveSaved == best.have
              && (if best.have then seq16 == Next16(best.sequence) && slot == (best.slot + 1) % TOTAL_SLOTS else seq16 == 0 && slot == 0)
      ensures Good(words[..], history) ==> Booted() && loaded == LastOf(history)
    {
      hide ValidPair, SequenceOf, ChannelOf, Newer, Good, SlotOk, Next16;
      var best := Best(false, 0, NO_CHANNEL, 0);
      ghost var w := words[..];
      for s := 0 to TOTAL_SLOTS
        invariant best == ScanUpTo(w, s) && (!best.have ==> best.channel == NO_CHANNEL)
      {
        var w0, w1 := words[SlotWord(s)], words[SlotWord(s) + 1];
        if ValidPair(w0, w1) && (!best.have || Newer(SequenceOf(w0), best.sequence)) {
          best := Best(true, SequenceOf(w0), ChannelOf(w0), s);
        }
      }
      if best.have {
        seq16, slot, haveSaved, savedLoaded := Next16(best.sequence), (best.slot + 1) % TOTAL_SLOTS, true, best.channel;
      } else {
        seq16, slot, haveSaved, savedLoaded := 0, 0, false, NO_CHANNEL;
      }
      loaded := best.channel;
      if Good(w, history) {
        ScanFindsNewest(w, history);
        assert history == [] ==> seq16 == Seq16(0) by { OneIsOne(); }
      }
    }

    /** Spend one flash operation; false when the power fails first. */
    method Operate() returns (alive: bool)
      modifies this`budget
      ensures alive <==> old(budget) != 0
      ensures if old(budget) > 0 then budget == old(budget) - 1 else budget == old(budget)
    {
      if budget == 0 {
        return false;
      }
      if budget > 0 {
        budget := budget - 1;
      }
      return true;
    }

    /** `flash_word_prog_std`. */
    method WordProg(a: nat, data: bv32) returns (ok: bool, lost: bool)
      requires a < words.Length
      modifies words, this`budget, this`images
      ensures var steps := ProgWord(old(words[..]), a, data);
              && images == old(images) + Done(steps, old(budget)) && words[..] == Final(old(words[..]), Done(steps, old(budget)))
              && budget == Left(steps, old(budget)) && (lost <==> Cut(steps, old(budget))) && (!lost ==> ok == steps.ok)
    {
      lost := false;
      if words[a] == data {
        return true, false;
      }
      if words[a] != ERASED {
        return false, false;
      }
      var alive := Operate();
      if !alive {
        return false, true;
      }
      words[a] := data;
      images := images + [words[..]];
      assert words[..] == old(words[..])[a := data];
      return true, false;
    }

    /** `flash_prog_words` on the two words of an entry. */
    method ProgWords(a: nat, w0: bv32, w1: bv32) returns (ok: bool, lost: bool)
      requires a + 1 < words.Length
      modifies words, this`budget, this`images
      ensures var steps := ProgPair(old(words[..]), a, w0, w1);
              && images == old(images) + Done(steps, old(budget)) && words[..] == Final(old(words[..]), Done(steps, old(budget)))
              && budget == Left(steps, old(budget)) && (lost <==> Cut(steps, old(budget))) && (!lost ==> ok == steps.ok)
    {
      hide Done, Left, Cut;
      ghost var w, b := words[..], budget;
      ghost var first := ProgWord(w, a, w0);
      DoneAll(first, b);
      ok, lost := WordProg(a, w0);
      if lost {
        ghost var second := ProgWord(Final(w, first.images), a + 1, w1);
        if first.ok {
          DoneCut(first, second, b);
        }
        return;
      }
      if !ok {
        return;
      }
      ghost var second := ProgWord(Final(w, first.images), a + 1, w1);
      DoneBoth(w, first, second, b);
      ok, lost := WordProg(a + 1, w1);
    }

    /** `flash256_erase`. */
    method Erase(page: nat) returns (lost: bool)
      requires page < PAGES && words.Length == TOTAL_WORDS
      modifies words, this`budget, this`images
      ensures var steps := Steps([ErasePage(old(words[..]), page)], true);
              && images == old(images) + Done(steps, old(budget)) && words[..] == Final(old(words[..]), Done(steps, old(budget)))
              && budget == Left(steps, old(budget)) && (lost <==> Cut(steps, old(budget)))
    {
      var alive := Operate();
      if !alive {
        return true;
      }
      assert WORDS_PER_PAGE * (page + 1) <= TOTAL_WORDS;
      forall i | WORDS_PER_PAGE * page <= i < WORDS_PER_PAGE * (page + 1) {
        words[i] := ERASED;
      }
      images := images + [words[..]];
      assert words[..] == ErasePage(old(words[..]), page);
      return false;
    }

    /** The flash part of a write: try the pair, else erase the page and try again. */
    method PutEntry(channel: bv8, w0: bv32) returns (ok: bool, lost: bool)
      requires Good(words[..], history) && slot == |history| % TOTAL_SLOTS && w0 == Pack(Seq16(|history|), channel)
      modifies words, this`budget, this`images
      ensures |old(words[..])| == TOTAL_WORDS
      ensures var steps := WriteEntry(old(words[..]), |history|, channel);
              && images == old(images) + Done(steps, old(budget)) && words[..] == Final(old(words[..]), Done(steps, old(budget)))
              && (lost <==> Cut(steps, old(budget))) && (!lost ==> ok == steps.ok)
    {
      hide Pack, Mask, Seq16, Good, Done, Left, Cut, Final, ProgPair, WriteEntry;
      GoodLength(words[..], history);
      WriteParts(words[..], history, channel);
      ghost var w, b := words[..], budget;
      ghost var e := ErasePage(w, slot / SLOTS_PER_PAGE);
      NothingToDo(w, b);
      ok, lost := ProgWords(SlotWord(slot), w0, Mask(w0));
      if !lost && !ok {
        ghost var erased, again := Steps([e], true), ProgPair(e, 2 * slot, w0, Mask(w0));
        EraseFinal(w, e, b);
        lost := Erase(slot / SLOTS_PER_PAGE);
        if lost {
          DoneCut(erased, again, b);
        } else {
          DoneBoth(w, erased, again, b);
          ok, lost := ProgWords(SlotWord(slot), w0, Mask(w0));
        }
      }
    }

    /**
     `Flash_AMS_state_write`.  If the power holds, the flash gains exactly this entry; if it
     fails, the flash is left at the image the failure caught.
     */
    method StateWrite(channel: bv8) returns (outcome: Outcome)
      requires Booted()
      modifies this, words
      ensures outcome == Unchanged <==> old(haveSaved) && old(savedLoaded) == channel
      ensures outcome == Unchanged ==> (Booted() && history == old(history) && words[..] == old(words[..]))
      ensures outcome == Written ==> (Booted() && history == old(history) + [channel])
      ensures outcome == Written ==> words[..] == Final(old(words[..]), WriteEntry(old(words[..]), |old(history)|, channel).images)
      ensures outcome == PowerLost ==>
                (history == old(history) && 0 <= old(budget) < |WriteEntry(old(words[..]), |old(history)|, channel).images|)
      ensures outcome == PowerLost ==>
                words[..] == Final(old(words[..]), WriteEntry(old(words[..]), |old(history)|, channel).images[..old(budget)])
    {
      hide Pack, Mask, Good, Seq16, Done, Left, Final, WriteEntry, Next16;
      images := [];
      if haveSaved && savedLoaded == channel {
        return Unchanged;
      }
      ghost var n := |history|;
      GoodLength(words[..], history);
      WriteCompletes(words[..], history, channel);
      DoneAll(WriteEntry(words[..], n, channel), budget);
      var ok, lost := PutEntry(channel, Pack(seq16, channel));
      if lost {
        return PowerLost;
      }
      NextTag(n);
      seq16, slot := Next16(seq16), (slot + 1) % TOTAL_SLOTS;
      haveSaved, savedLoaded := true, channel;
      history := history + [channel];
      return Written;
    }
  }

  /** The pair is programmed as it is, or refused untouched and programmed after one erase. */
  lemma WriteParts(w: seq<bv32>, h: seq<bv8>, channel: bv8)
    requires Good(w, h)
    ensures |w| == TOTAL_WORDS
    ensures var n, slot := |h|, |h| % TOTAL_SLOTS;
            var w0 := Pack(Seq16(n), channel);
            var tried, e := ProgPair(w, 2 * slot, w0, Mask(w0)), ErasePage(w, slot / SLOTS_PER_PAGE);
            var again := ProgPair(e, 2 * slot, w0, Mask(w0));
            if tried.ok then WriteEntry(w, n, channel) == tried
            else tried == Steps([], false) && WriteEntry(w, n, channel) == Steps([e] + again.images, again.ok)
  {
    hide Pack, Mask, Seq16, SlotOk, ProgPair;
    var n, slot := |h|, |h| % TOTAL_SLOTS;
    var w0 := Pack(Seq16(n), channel);
    NextSlotWords(w, h);
    if w[2 * slot] == w0 || w[2 * slot] == ERASED {
      PairTakes(w, 2 * slot, w0, Mask(w0));
    } else {
      PairRefuses(w, 2 * slot, w0, Mask(w0));
      assert [] + [ErasePage(w, slot / SLOTS_PER_PAGE)] == [ErasePage(w, slot / SLOTS_PER_PAGE)];
    }
  }

  lemma NextTag(n: nat)
    ensures Seq16(n + 1) == Next16(Seq16(n))
  {
  }

  // ----- What a limited power supply gets done -----

  predicate Cut(steps: Steps, budget: int) { 0 <= budget < |steps.images| }

  function Done(steps: Steps, budget: int): seq<seq<bv32>> {
    if Cut(steps, budget) then steps.images[..budget] else steps.images
  }

  function Left(steps: Steps, budget: int): int {
    if budget < 0 then budget else budget - |Done(steps, budget)|
  }

  lemma DoneAll(steps: Steps, budget: int)
    ensures !Cut(steps, budget) ==> Done(steps, budget) == steps.images
    ensures Cut(steps, budget) ==> 0 <= budget < |steps.images| && Done(steps, budget) == steps.images[..budget]
  {
  }

  lemma DoneCut(first: Steps, second: Steps, budget: int)
    requires Cut(first, budget)
    ensures var both := Steps(first.images + second.images, second.ok);
            Cut(both, budget) && Done(both, budget) == Done(first, budget) && Left(both, budget) == Left(first, budget)
  {
    assert (first.images + second.images)[..budget] == first.images[..budget];
  }

  lemma DoneBoth(w: seq<bv32>, first: Steps, second: Steps, budget: int)
    requires !Cut(first, budget)
    ensures var both, left := Steps(first.images + second.images, second.ok), Left(first, budget);
            && Done(both, budget) == Done(first, budget) + Done(second, left)
            && (Cut(both, budget) <==> Cut(second, left)) && Left(both, budget) == Left(second, left)
            && Final(w, Done(both, budget)) == Final(Final(w, Done(first, budget)), Done(second, left))
  {
    var left := Left(first, budget);
    if budget >= 0 && Cut(second, left) {
      assert (first.images + second.images)[..budget] == first.images + second.images[..left];
    }
  }

  lemma NothingToDo(w: seq<bv32>, budget: int)
    ensures var none := Steps([], false);
            !Cut(none, budget) && Done(none, budget) == [] && Left(none, budget) == budget && Final(w, Done(none, budget)) == w
  {
  }

  lemma EraseFinal(w: seq<bv32>, e: seq<bv32>, budget: int)
    ensures Final(w, Done(Steps([e], true), budget)) == if Cut(Steps([e], true), budget) then w else e
  {
  }

  lemma GoodLength(w: seq<bv32>, h: seq<bv8>)
    requires Good(w, h)
    ensures |w| == TOTAL_WORDS
  {
  }
}
