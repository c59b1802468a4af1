/** The sliding replay window of `controller/replay.go`: the ring bitmap of RFC 6479, checked
    against an unbounded set of the counters accepted so far.  A machine word is the sequence
    of its bits, so `word | (1 << b)` is `word[b := true]`. */
module Replay {
  const REJECT_AFTER_MESSAGES: nat := 0x1_0000_0000_0000_0000 - 16 - 1
  const COUNTER_BITS_TOTAL: nat := 2048

  type Word = seq<bool>

  // The two values the build constants can take; a word has 8 bytes or 4.
  datatype Arch = Bits32 | Bits64 {
    function WordBits(): nat { if Bits64? then 64 else 32 }
    function WindowSize(): nat { COUNTER_BITS_TOTAL - WordBits() }
    function RingWords(): nat { if Bits64? then COUNTER_BITS_TOTAL / 8 else COUNTER_BITS_TOTAL / 4 }
    // counter >> CounterRedundantBitsLog
    function IndexWord(counter: nat): nat { if Bits64? then counter / 64 else counter / 32 }
    // counter & (CounterRedundantBits - 1)
    function IndexBit(counter: nat): nat { if Bits64? then counter % 64 else counter % 32 }
    // index % BacktrackWords
    function Slot(index: nat): nat { if Bits64? then index % 256 else index % 512 }
    function Zero(): Word { seq(WordBits(), _ => false) }
  }

  /** What the filter promises: a set of accepted counters, with no bitmap. */
  datatype Window = Window(accepted: set<nat>, highest: nat)

  const EMPTY_WINDOW := Window({}, 0)

  ghost predicate WindowOk(w: Window) {
    && (forall c <- w.accepted :: c <= w.highest)
    && (w.highest == 0 || w.highest in w.accepted)
  }

  predicate Accepts(arch: Arch, w: Window, counter: nat) {
    && counter < REJECT_AFTER_MESSAGES
    && counter !in w.accepted
    && counter + arch.WindowSize() >= w.highest
  }

  function Update(arch: Arch, w: Window, counter: nat): Window {
    if Accepts(arch, w, counter)
    then Window(w.accepted + {counter}, if counter > w.highest then counter else w.highest)
    else w
  }

  function After(arch: Arch, w: Window, counters: seq<nat>): Window {
    if counters == [] then w
    else Update(arch, After(arch, w, counters[..|counters| - 1]), counters[|counters| - 1])
  }

  // Counter number `bit` of ring word number `index`.
  function CounterAt(arch: Arch, index: nat, bit: nat): nat {
    if arch.Bits64? then index * 64 + bit else index * 32 + bit
  }

  ghost predicate Records(arch: Arch, word: Word, index: nat, accepted: set<nat>) {
    && |word| == arch.WordBits()
    && forall b :: 0 <= b < |word| ==> (word[b] <==> CounterAt(arch, index, b) in accepted)
  }

  ghost predicate Shaped(arch: Arch, ring: seq<Word>) {
    && |ring| == arch.RingWords()
    && forall i :: 0 <= i < |ring| ==> |ring[i]| == arch.WordBits()
  }

  // The ring words the window can still refer to record exactly the accepted counters.
  ghost predicate RingOk(arch: Arch, ring: seq<Word>, accepted: set<nat>, highest: nat) {
    && Shaped(arch, ring)
    && (forall c <- accepted :: c <= highest)
    && forall j: nat {:trigger arch.Slot(j)} ::
         j <= arch.IndexWord(highest) < j + arch.RingWords() ==> Records(arch, ring[arch.Slot(j)], j, accepted)
  }

  // How many words after word `current` the slot `s` comes, going round the ring.
  function Ahead(arch: Arch, s: nat, current: nat): nat {
    if arch.Bits64? then (s - current - 1) % 256 else (s - current - 1) % 512
  }

  ghost function Cleared(arch: Arch, ring: seq<Word>, current: nat, n: nat): (r: seq<Word>)
    ensures |r| == |ring|
  {
    seq(|ring|, s requires 0 <= s < |ring| => if Ahead(arch, s, current) < n then arch.Zero() else ring[s])
  }

  lemma Wraps256(n: nat, q: int)
    requires n < 256
    ensures (n - 256 * q) % 256 == n
  {
  }

  lemma Wraps512(n: nat, q: int)
    requires n < 512
    ensures (n - 512 * q) % 512 == n
  {
  }

  lemma AheadOfSlot(arch: Arch, current: nat, n: nat)
    requires n < arch.RingWords()
    ensures Ahead(arch, arch.Slot(current + n + 1), current) == n
  {
    if arch.Bits64? {
      var q := (current + n + 1) / 256;
      assert arch.Slot(current + n + 1) - current - 1 == n - 256 * q;
      Wraps256(n, q);
    } else {
      var q := (current + n + 1) / 512;
      assert arch.Slot(current + n + 1) - current - 1 == n - 512 * q;
      Wraps512(n, q);
    }
  }

  lemma AheadOnce(arch: Arch, current: nat, s: nat, t: nat)
    requires s < arch.RingWords() && t < arch.RingWords() && Ahead(arch, s, current) == Ahead(arch, t, current)
    ensures s == t
  {
    if arch.Bits64? {
      var p, q := (s - current - 1) / 256, (t - current - 1) / 256;
      assert s - t == 256 * (p - q);
    } else {
      var p, q := (s - current - 1) / 512, (t - current - 1) / 512;
      assert s - t == 512 * (p - q);
    }
  }

  lemma SlotBehind(arch: Arch, current: nat, j: nat, d: nat)
    requires j <= current && current + d < j + arch.RingWords()
    ensures Ahead(arch, arch.Slot(j), current) >= d
  {
  }

  lemma SlotsDiffer(arch: Arch, i: nat, j: nat)
    requires i < j < i + arch.RingWords()
    ensures arch.Slot(i) != arch.Slot(j)
  {
  }

  lemma SplitCounter(arch: Arch, counter: nat)
    ensures CounterAt(arch, arch.IndexWord(counter), arch.IndexBit(counter)) == counter
    ensures arch.IndexBit(counter) < arch.WordBits()
    ensures arch.Slot(arch.IndexWord(counter)) < arch.RingWords()
  {
  }

  lemma CounterAtOnce(arch: Arch, i: nat, b: nat, j: nat, c: nat)
    requires b < arch.WordBits() && c < arch.WordBits() && CounterAt(arch, i, b) == CounterAt(arch, j, c)
    ensures i == j && b == c
  {
  }

  lemma LaterWord(arch: Arch, j: nat, b: nat, highest: nat)
    requires arch.IndexWord(highest) < j
    ensures CounterAt(arch, j, b) > highest
  {
  }

  lemma WindowInRing(arch: Arch, counter: nat, highest: nat)
    requires highest - arch.WindowSize() <= counter <= highest
    ensures arch.IndexWord(counter) <= arch.IndexWord(highest) < arch.IndexWord(counter) + arch.RingWords()
  {
  }

  lemma ClearNext(arch: Arch, ring: seq<Word>, current: nat, n: nat, slot: nat)
    requires |ring| == arch.RingWords() && n < |ring| && slot < |ring|
    requires Ahead(arch, slot, current) == n
    ensures Cleared(arch, ring, current, n)[slot := arch.Zero()] == Cleared(arch, ring, current, n + 1)
  {
    var after := Cleared(arch, ring, current, n)[slot := arch.Zero()];
    forall s | 0 <= s < |ring|
      ensures after[s] == Cleared(arch, ring, current, n + 1)[s]
    {
      if Ahead(arch, s, current) == n { AheadOnce(arch, current, s, slot); }
    }
  }

  lemma FreshWord(arch: Arch, j: nat, accepted: set<nat>, highest: nat)
    requires (forall c <- accepted :: c <= highest) && arch.IndexWord(highest) < j
    ensures Records(arch, arch.Zero(), j, accepted)
  {
    forall b | 0 <= b < arch.WordBits() ensures CounterAt(arch, j, b) !in accepted {
      LaterWord(arch, j, b, highest);
    }
  }

  // Moving the window forward clears every word that comes into use and no word still in use.
  lemma AdvanceKeepsRing(arch: Arch, ring: seq<Word>, accepted: set<nat>, highest: nat, counter: nat, diff: nat)
    requires RingOk(arch, ring, accepted, highest) && counter > highest
    requires var d := arch.IndexWord(counter) - arch.IndexWord(highest);
             diff == if d > arch.RingWords() then arch.RingWords() else d
    ensures RingOk(arch, Cleared(arch, ring, arch.IndexWord(highest), diff), accepted, counter)
  {
    var current, index := arch.IndexWord(highest), arch.IndexWord(counter);
    forall j: nat | j <= index < j + arch.RingWords()
      ensures Records(arch, Cleared(arch, ring, current, diff)[arch.Slot(j)], j, accepted)
    {
      AdvancedWord(arch, ring, accepted, highest, index, diff, j);
    }
  }

  lemma AdvancedWord(arch: Arch, ring: seq<Word>, accepted: set<nat>, highest: nat, index: nat, diff: nat, j: nat)
    requires RingOk(arch, ring, accepted, highest) && arch.IndexWord(highest) <= index
    requires diff == if index - arch.IndexWord(highest) > arch.RingWords() then arch.RingWords()
      else index - arch.IndexWord(highest)
    requires j <= index < j + arch.RingWords()
    ensures Records(arch, Cleared(arch, ring, arch.IndexWord(highest), diff)[arch.Slot(j)], j, accepted)
  {
    var current := arch.IndexWord(highest);
    if j <= current {
      SlotBehind(arch, current, j, diff);
    } else {
      FreshWord(arch, j, accepted, highest);
      if diff < arch.RingWords() { AheadOfSlot(arch, current, j - current - 1); }
    }
  }

  // Within the window, the bit tells whether the counter was accepted, and setting it records it.
  lemma SetKeepsRing(arch: Arch, ring: seq<Word>, accepted: set<nat>, highest: nat, counter: nat, slot: nat, bit: nat)
    requires RingOk(arch, ring, accepted, highest)
    requires highest - arch.WindowSize() <= counter <= highest
    requires slot == arch.Slot(arch.IndexWord(counter)) && bit == arch.IndexBit(counter)
    ensures slot < |ring| && bit < |ring[slot]|
    ensures ring[slot][bit] <==> counter in accepted
    ensures RingOk(arch, ring[slot := ring[slot][bit := true]], accepted + {counter}, highest)
  {
    var i := arch.IndexWord(counter);
    SplitCounter(arch, counter);
    WindowInRing(arch, counter, highest);
    var after := ring[slot := ring[slot][bit := true]];
    forall j: nat | j <= arch.IndexWord(highest) < j + arch.RingWords()
      ensures Records(arch, after[arch.Slot(j)], j, accepted + {counter})
    {
      if i < j { SlotsDiffer(arch, i, j); } else if j < i { SlotsDiffer(arch, j, i); }
      SetWord(arch, ring[arch.Slot(j)], j, accepted, i, bit, counter);
    }
  }

  lemma SetWord(arch: Arch, word: Word, j: nat, accepted: set<nat>, i: nat, bit: nat, counter: nat)
    requires Records(arch, word, j, accepted)
    requires bit < arch.WordBits() && CounterAt(arch, i, bit) == counter
    ensures Records(arch, if j == i then word[bit := true] else word, j, accepted + {counter})
  {
    forall b | 0 <= b < |word| && CounterAt(arch, j, b) == counter ensures j == i && b == bit {
      CounterAtOnce(arch, i, bit, j, b);
    }
  }

  class ReplayFilter {
    const arch: Arch
    const backtrack: array<Word>
    var counter: nat
    ghost var accepted: set<nat>

    ghost predicate Valid()
      reads this, backtrack
    {
      && RingOk(arch, backtrack[..], accepted, counter)
      && WindowOk(Abstract())
    }

    ghost function Abstract(): Window
      reads this
    {
      Window(accepted, counter)
    }

    // The words keep whatever the memory held before: Init clears only word 0.
    constructor (arch: Arch, words: array<Word>)
      requires Shaped(arch, words[..])
      ensures this.arch == arch && backtrack == words
    {
      this.arch := arch;
      backtrack := words;
    }

    method Init()
      requires Shaped(arch, backtrack[..])
      modifies this, backtrack
      ensures Valid() && Abstract() == EMPTY_WINDOW
    {
      counter := 0;
      backtrack[0] := arch.Zero();
      accepted := {};
    }

    // The loop that moves the window forward.
    method ClearWords(current: nat, diff: nat)
      requires Shaped(arch, backtrack[..]) && diff <= arch.RingWords()
      modifies backtrack
      ensures backtrack[..] == Cleared(arch, old(backtrack[..]), current, diff)
    {
      ghost var before := backtrack[..];
      assert backtrack[..] == Cleared(arch, before, current, 0);
      for i := 1 to diff + 1
        invariant backtrack[..] == Cleared(arch, before, current, i - 1)
      {
        AheadOfSlot(arch, current, i - 1);
        ClearNext(arch, before, current, i - 1, arch.Slot(current + i));
        backtrack[arch.Slot(current + i)] := arch.Zero();
      }
    }

    method ValidateCounter(counter: nat) returns (ok: bool)
      requires Valid()
      modifies this, backtrack
      ensures Valid()
      ensures ok == Accepts(arch, old(Abstract()), counter)
      ensures Abstract() == Update(arch, old(Abstract()), counter)
    {
      if counter >= REJECT_AFTER_MESSAGES {
        return false;
      }

      var indexWord := arch.IndexWord(counter);

      if counter > this.counter {
        var current := arch.IndexWord(this.counter);
        var diff := if indexWord - current > arch.RingWords() then arch.RingWords() else indexWord - current;
        ghost var before := backtrack[..];
        ClearWords(current, diff);
        AdvanceKeepsRing(arch, before, accepted, this.counter, counter, diff);
        this.counter := counter;
      } else if this.counter - counter > arch.WindowSize() {
        return false;
      }

      indexWord := arch.Slot(indexWord);
      var indexBit := arch.IndexBit(counter);
      SetKeepsRing(arch, backtrack[..], accepted, this.counter, counter, indexWord, indexBit);
      var oldValue := backtrack[indexWord];
      var newValue := oldValue[indexBit := true];
      backtrack[indexWord] := newValue;
      accepted := accepted + {counter};
      return oldValue != newValue;
    }
  }

  // The loop of the sequential receiver, reduced to its replay checks: starting from a ring with
  // arbitrary old contents, every answer is the one the set of accepted counters gives.
  method CheckAll(arch: Arch, words: array<Word>, counters: seq<nat>) returns (answers: seq<bool>)
    requires Shaped(arch, words[..])
    modifies words
    ensures |answers| == |counters|
    ensures forall i :: 0 <= i < |counters| ==>
      answers[i] == Accepts(arch, After(arch, EMPTY_WINDOW, counters[..i]), counters[i])
  {
    var filter := new ReplayFilter(arch, words);
    filter.Init();
    answers := [];
    assert counters[..0] == [];
    for n := 0 to |counters|
      invariant filter.backtrack == words && filter.arch == arch && fresh(filter)
      invariant filter.Valid() && filter.Abstract() == After(arch, EMPTY_WINDOW, counters[..n])
      invariant |answers| == n
      invariant forall i :: 0 <= i < n ==>
        answers[i] == Accepts(arch, After(arch, EMPTY_WINDOW, counters[..i]), counters[i])
    {
      assert counters[..n + 1][..n] == counters[..n];
      var ok := filter.ValidateCounter(counters[n]);
      answers := answers + [ok];
    }
  }

  lemma {:induction false} AfterGrows(arch: Arch, counters: seq<nat>, i: nat)
    requires i <= |counters|
    ensures After(arch, EMPTY_WINDOW, counters[..i]).accepted <= After(arch, EMPTY_WINDOW, counters).accepted
    ensures After(arch, EMPTY_WINDOW, counters[..i]).highest <= After(arch, EMPTY_WINDOW, counters).highest
  {
    if i < |counters| {
      var most := counters[..|counters| - 1];
      AfterGrows(arch, most, i);
      assert most[..i] == counters[..i];
    } else {
      assert counters[..i] == counters;
    }
  }

  // After any history, the window is the largest accepted counter (0 at first) together with
  // counters that were all presented, all below the limit.
  lemma {:induction false} AfterInvariant(arch: Arch, counters: seq<nat>)
    ensures WindowOk(After(arch, EMPTY_WINDOW, counters))
    ensures forall c <- After(arch, EMPTY_WINDOW, counters).accepted :: c in counters && c < REJECT_AFTER_MESSAGES
  {
    if counters != [] {
      AfterInvariant(arch, counters[..|counters| - 1]);
    }
  }

  // No counter passes the check twice, whatever else arrives in between.
  lemma AcceptedAtMostOnce(arch: Arch, counters: seq<nat>, i: nat, j: nat)
    requires i < j < |counters| && counters[i] == counters[j]
    requires Accepts(arch, After(arch, EMPTY_WINDOW, counters[..i]), counters[i])
    ensures !Accepts(arch, After(arch, EMPTY_WINDOW, counters[..j]), counters[j])
  {
    assert counters[..i + 1][..i] == counters[..i];
    AfterGrows(arch, counters[..j], i + 1);
    assert counters[..j][..i + 1] == counters[..i + 1];
  }

  // A counter that was never presented passes exactly when it is below the limit and at most the
  // window size behind the largest accepted one.
  lemma FirstTimePasses(arch: Arch, counters: seq<nat>, c: nat)
    requires c !in counters
    ensures Accepts(arch, After(arch, EMPTY_WINDOW, counters), c)
      <==> && c < 0xffff_ffff_ffff_ffef
           && After(arch, EMPTY_WINDOW, counters).highest - c <= if arch.Bits64? then 1984 else 2016
  {
    AfterInvariant(arch, counters);
  }

  // A counter once refused below the limit stays refused: the window only moves forward.
  lemma RefusedStaysRefused(arch: Arch, counters: seq<nat>, i: nat, j: nat)
    requires i <= j < |counters| && counters[i] == counters[j]
    requires !Accepts(arch, After(arch, EMPTY_WINDOW, counters[..i]), counters[i])
    ensures !Accepts(arch, After(arch, EMPTY_WINDOW, counters[..j]), counters[j])
  {
    AfterGrows(arch, counters[..j], i);
    assert counters[..j][..i] == counters[..i];
  }
}
