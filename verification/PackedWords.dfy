/** The two packed 64-bit words: a register (write count above, value below) and the control block of
    a version pool (outer count above, current index below).

    The snapshot model works on the unpacked pairs.  This module gives the words with their masks and
    wrap-around, and shows for which counts the packed operations are the unpacked ones. */
module PackedWords {
  import opened SnapshotModel

  const HALF := 0x1_0000_0000
  const FULL := 0x1_0000_0000_0000_0000
  const SIGN := 0x8000_0000

  type Word = x: nat | x < FULL
  type Int32 = v: int | -SIGN <= v < SIGN

  function Low(w: Word): (half: Word) { w % HALF }

  function High(w: Word): (half: Word) { w - w % HALF }

  function Add64(x: Word, y: Word): (sum: Word) { (x + y) % FULL }

  /** Conversion of an int to 64 unsigned bits, sign-extended. */
  function Widen(v: Int32): (w: Word) { if v >= 0 then v else v + FULL }

  /** Conversion of 32 bits to a signed int. */
  function Signed(x: nat): (v: Int32)
    requires x < HALF
  {
    if x < SIGN then x else x - HALF
  }

  /** The masks of the source, on machine words: `Low` and `High` are its two masks, and or-ing a high
      half with a low half adds them. */
  lemma {:induction false} MasksAreHalves(a: bv64, b: bv64)
    ensures a & 0xffff_ffff_0000_0000 == (a >> 32) << 32
    ensures a & 0x0000_0000_ffff_ffff == a - ((a >> 32) << 32) < 0x1_0000_0000
    ensures (a & 0xffff_ffff_0000_0000) | (b & 0x0000_0000_ffff_ffff)
            == (a & 0xffff_ffff_0000_0000) + (b & 0x0000_0000_ffff_ffff)
  {
  }

  // ---------------------------------------------------------------- the register word

  /** The word after a write, or None when the assert on the wrapped-around stamp fails. */
  datatype Written = Stored(word: Word) | StampOverflow

  lemma {:induction false} StampAligned(w: Word)
    ensures Add64(High(w), HALF) <= FULL - HALF && Low(Add64(High(w), HALF)) == 0
  {
  }

  function WriteWord(w: Word, v: Int32): (w1: Written)
  {
    var stamp := Add64(High(w), HALF);
    if stamp == 0 then StampOverflow
    else
      assert stamp <= FULL - HALF by { StampAligned(w); }
      Stored(stamp + Low(Widen(v)))
  }

  function ReadWord(w: Word): (v: Int32) { Signed(Low(w)) }

  lemma {:induction false} WriteAdvances(w: Word, v: Int32)
    ensures WriteWord(w, v).StampOverflow? <==> High(w) == FULL - HALF
    ensures WriteWord(w, v).Stored? ==>
      var x := WriteWord(w, v).word;
      x > w && ReadWord(x) == v && x / HALF == w / HALF + 1 && x == Add64(High(w), HALF) + Low(Widen(v))
  {
  }

  class AtomicRegister {
    var word: Word

    constructor ()
      ensures word == 0
    {
      word := 0;
    }

    /** Equality compares stamp and value at once. */
    method Equals(r: AtomicRegister) returns (same: bool)
      ensures same <==> word == r.word
    {
      same := word == r.word;
    }

    method Assign(r: AtomicRegister)
      modifies this
      ensures word == old(r.word)
    {
      word := r.word;
    }

    method Read() returns (v: Int32)
      ensures v == ReadWord(word)
    {
      v := Signed(word % HALF);
    }

    /** `ok` is false when the source's assert on the stamp fails; the register is then unchanged. */
    method Write(v: Int32) returns (ok: bool)
      modifies this
      ensures ok <==> High(old(word)) != FULL - HALF
      ensures ok ==> WriteWord(old(word), v) == Stored(word)
      ensures ok ==> word > old(word) && ReadWord(word) == v && word / HALF == old(word) / HALF + 1
      ensures !ok ==> word == old(word)
    {
      var stamp := (word - word % HALF + HALF) % FULL;
      ok := stamp != 0;
      if ok {
        WriteAdvances(word, v);
        word := stamp + Widen(v) % HALF;
      }
    }
  }

  /** The word that holds an unpacked register. */
  function Encode(r: Reg): (w: Word)
    requires r.ts < HALF && -SIGN <= r.val < SIGN
    ensures ReadWord(w) == r.val && w / HALF == r.ts
  {
    r.ts * HALF + Low(Widen(r.val))
  }

  /** Word comparison is register comparison, so a clean comparison means that no write intervened. */
  lemma {:induction false} EncodeOrder(r: Reg, q: Reg)
    requires r.ts < HALF && -SIGN <= r.val < SIGN && q.ts < HALF && -SIGN <= q.val < SIGN
    ensures Encode(r) == Encode(q) <==> r == q
    ensures r.ts < q.ts ==> Encode(r) < Encode(q)
  {
  }

  /** A packed write is the unpacked write exactly while the count fits in its half. */
  lemma {:induction false} WriteRefines(r: Reg, v: Int32)
    requires r.ts < HALF && -SIGN <= r.val < SIGN
    ensures WriteWord(Encode(r), v) == if r.ts + 1 < HALF then Stored(Encode(Reg(r.ts + 1, v))) else StampOverflow
  {
    WriteAdvances(Encode(r), v);
  }

  /** The words of a register along a sequence of writes, starting from the default word. */
  function WriteAll(vs: seq<Int32>): (w: Written)
  {
    if vs == [] then Stored(0)
    else
      match WriteAll(vs[..|vs| - 1])
      case Stored(w) => WriteWord(w, vs[|vs| - 1])
      case StampOverflow => StampOverflow
  }

  /** A register survives any number of writes below 2^32, and no further one. */
  lemma {:induction false} WritesCounted(vs: seq<Int32>)
    ensures WriteAll(vs).Stored? <==> |vs| < HALF
    ensures WriteAll(vs).Stored? ==> WriteAll(vs).word == Encode(Reg(|vs|, if vs == [] then 0 else vs[|vs| - 1]))
  {
    if vs != [] {
      var prev := vs[..|vs| - 1];
      WritesCounted(prev);
      if |prev| < HALF {
        WriteRefines(Reg(|prev|, if prev == [] then 0 else prev[|prev| - 1]), vs[|vs| - 1]);
      }
    }
  }

  /** Two reads of one register that see equal words saw no write between them. */
  lemma {:induction false} EqualWordsNoWrite(vs: seq<Int32>, a: nat, b: nat)
    requires a <= b <= |vs| < HALF
    ensures WriteAll(vs[..a]).Stored? && WriteAll(vs[..b]).Stored?
    ensures WriteAll(vs[..a]).word == WriteAll(vs[..b]).word <==> a == b
    ensures a < b ==> WriteAll(vs[..a]).word < WriteAll(vs[..b]).word
  {
    WritesCounted(vs[..a]);
    WritesCounted(vs[..b]);
    EncodeOrder(
      Reg(a, if vs[..a] == [] then 0 else vs[..a][a - 1]),
      Reg(b, if vs[..b] == [] then 0 else vs[..b][b - 1]));
  }

  // ---------------------------------------------------------------- the control block

  function Control(cnt: nat, idx: nat): (w: Word)
    requires cnt < HALF && idx < HALF
    ensures Low(w) == idx && w / HALF == cnt
  {
    cnt * HALF + idx
  }

  /** The outer count as the int that exchange tests with its second assert. */
  function ExtractCount(w: Word): (count: Int32) { Signed(w / HALF) }

  function {:induction false} AddRefs(w: Word, k: nat): (w1: Word)
  {
    if k == 0 then w else Add64(AddRefs(w, k - 1), HALF)
  }

  lemma {:induction false} AddOne(w: Word)
    ensures Low(Add64(w, HALF)) == Low(w)
    ensures Add64(w, HALF) / HALF == (w / HALF + 1) % HALF
  {
  }

  lemma {:induction false} ModStep(x: nat)
    ensures (x % HALF + 1) % HALF == (x + 1) % HALF
  {
  }

  /** k acquisitions never disturb the index, and they add exactly k while the count fits. */
  lemma {:induction false} AddRefsKeepsIndex(w: Word, k: nat)
    ensures Low(AddRefs(w, k)) == Low(w)
    ensures AddRefs(w, k) / HALF == (w / HALF + k) % HALF
  {
    if k > 0 {
      AddRefsKeepsIndex(w, k - 1);
      AddOne(AddRefs(w, k - 1));
      ModStep(w / HALF + (k - 1));
    }
  }

  lemma {:induction false} SignedExact(k: nat)
    requires k < HALF
    ensures (Signed(k) >= 0 <==> k < SIGN) && (Signed(k) == k <==> k < SIGN)
  {
  }

  /** The count that exchange takes out of a version acquired k times: right, and accepted by its
      assert, exactly when k is below 2^31. */
  lemma {:induction false} CountExtracted(idx: nat, k: nat)
    requires idx < HALF && k < HALF
    ensures Low(AddRefs(Control(0, idx), k)) == idx
    ensures ExtractCount(AddRefs(Control(0, idx), k)) >= 0 <==> k < SIGN
    ensures ExtractCount(AddRefs(Control(0, idx), k)) == k <==> k < SIGN
  {
    var w := Control(0, idx);
    AddRefsKeepsIndex(w, k);
    assert w == idx && w / HALF == 0 && k % HALF == k;
    SignedExact(k);
  }
}
