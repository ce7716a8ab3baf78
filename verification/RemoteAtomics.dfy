/**
 How the SmartNIC takes credits: a 64-bit compare-and-swap over a word whose
 low half is a pool's credit count and whose high half belongs to the domain.
 */
module RemoteAtomics {

  const TWO32: nat := 0x1_0000_0000

  newtype Word = x: int | 0 <= x < 0x1_0000_0000_0000_0000

  function Lo(w: Word): nat { w as int % TWO32 }

  function Hi(w: Word): nat { w as int / TWO32 }

  function Join(lo: nat, hi: nat): (w: Word)
    requires lo < TWO32 && hi < TWO32
    ensures Lo(w) == lo && Hi(w) == hi
  {
    (hi * TWO32 + lo) as Word
  }

  /** Unsigned 64-bit subtraction. */
  function Sub64(a: Word, b: Word): Word {
    if a >= b then a - b else ((a as int - b as int) + 0x1_0000_0000_0000_0000) as Word
  }

  /** What one acquire_credits() leaves behind and what it returns. */
  datatype Acquired = Acquired(word: Word, got: nat)

  /** The CAS takes effect on all 64 bits; the caller looks at the low 32 bits of the old value. */
  function Acquire(word: Word, compare: Word, swap: Word): Acquired {
    Acquired(if word == compare then swap else word,
             if Lo(word) == Lo(compare) then Lo(Sub64(compare, swap)) else 0)
  }

  /** The low half tells the truth exactly when the high half cannot have moved. */
  lemma LowHalfDecides(word: Word, compare: Word)
    requires Lo(word) == Lo(compare)
    ensures word == compare <==> Hi(word) == Hi(compare)
  {
    assert word as int == Hi(word) * TWO32 + Lo(word);
    assert compare as int == Hi(compare) * TWO32 + Lo(compare);
  }

  /** If the high half did move, credits are reported that nobody gave up. */
  lemma StaleHighHalfMintsCredits(word: Word, compare: Word, swap: Word)
    requires Lo(word) == Lo(compare) && Hi(word) != Hi(compare)
    ensures Acquire(word, compare, swap).word == word
    ensures Acquire(word, compare, swap).got == Lo(Sub64(compare, swap))
  {
    LowHalfDecides(word, compare);
  }

  lemma SubtractHalves(a: Word, b: Word)
    ensures Lo(Sub64(a, b)) == if Lo(a) >= Lo(b) then Lo(a) - Lo(b) else Lo(a) + TWO32 - Lo(b)
    ensures Lo(a) >= Lo(b) && a >= b ==> Hi(Sub64(a, b)) == Hi(a) - Hi(b)
  {
  }

  /** credit_manager()'s first grabs, new = old - batch: exact if and only if the count covers the batch. */
  lemma TakeBatchIsExact(word: Word, seen: Word, batch: nat)
    requires 0 < batch < TWO32 && Hi(word) == Hi(seen)
    ensures var a := Acquire(word, seen, Sub64(seen, batch as Word));
            && (word != seen ==> a.got == 0 && a.word == word)
            && (word == seen ==> a.got == batch)
            && (word == seen ==> (Lo(word) == Lo(a.word) + a.got <==> batch <= Lo(seen)))
            && (word == seen && batch <= Lo(seen) ==> Hi(a.word) == Hi(word))
  {
    if Lo(word) == Lo(seen) { LowHalfDecides(word, seen); }
    SubtractHalves(seen, batch as Word);
    SubtractHalves(seen, Sub64(seen, batch as Word));
  }

  /** What such a grab reports, whether or not it takes effect. */
  lemma TakeReports(word: Word, seen: Word, batch: nat)
    requires batch < TWO32
    ensures Acquire(word, seen, Sub64(seen, batch as Word)).got == if Lo(word) == Lo(seen) then batch else 0
  {
    SubtractHalves(seen, batch as Word);
    SubtractHalves(seen, Sub64(seen, batch as Word));
  }

  /** If the upper half has changed, or the count is short, the word's count does not go down. */
  lemma TakeLeaves(word: Word, seen: Word, batch: nat)
    requires Lo(word) == Lo(seen) && batch < TWO32 && (Hi(word) != Hi(seen) || Lo(seen) < batch)
    ensures Lo(Acquire(word, seen, Sub64(seen, batch as Word)).word) >= Lo(word)
  {
    LowHalfDecides(word, seen);
    SubtractHalves(seen, batch as Word);
  }

  /** Its later grabs, new = left behind as a whole word: exact if and only if the count covers what is left. */
  lemma LeaveBehindIsExact(word: Word, seen: Word, left: nat)
    requires left < TWO32 && Hi(word) == Hi(seen)
    ensures var a := Acquire(word, seen, left as Word);
            && (word != seen ==> a.got == 0 && a.word == word)
            && (word == seen ==> Lo(a.word) == left && Hi(a.word) == 0)
            && (word == seen ==> (Lo(word) == Lo(a.word) + a.got <==> left <= Lo(seen)))
  {
    if Lo(word) == Lo(seen) { LowHalfDecides(word, seen); }
    SubtractHalves(seen, left as Word);
  }
}
