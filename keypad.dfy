/**
 * The 12-slot telephone keypad and its Fisher-Yates shuffle.
 *
 * The keypad is drawn as a 3-column grid of 12 slots: nine digits, a
 * blank, a digit, a blank. Shuffling permutes the ten digits and puts them
 * back into the same template, so the blanks never move.
 */
module Keypad {
  import opened Digits
  import opened FisherYates

  const Blank: string := ""

  /** The digits the shuffle starts from: "1" to "9", then "0" (NumbersInOrder). */
  const Numbers: seq<string> := [DigitKey(1), DigitKey(2), DigitKey(3), DigitKey(4), DigitKey(5),
    DigitKey(6), DigitKey(7), DigitKey(8), DigitKey(9), DigitKey(0)]

  /** The unshuffled keypad: 1-9, a blank, 0, a blank (CanonicalInOrder). */
  const CanonicalLayout: seq<string> := Template(Numbers)

  /** The slots of a 12-slot layout that hold digits. */
  function DigitSlots(layout: seq<string>): seq<string>
    requires |layout| == 12
  {
    layout[..9] + [layout[10]]
  }

  /** Twelve slots, blanks at 9 and 11, and the ten digits in the other ten. */
  predicate IsLayout(layout: seq<string>) {
    |layout| == 12 && layout[9] == Blank && layout[11] == Blank
    && multiset(DigitSlots(layout)) == multiset(Numbers)
  }

  /** Puts ten keys into the telephone template, keeping slots 9 and 11 blank. */
  function Template(numbers: seq<string>): (layout: seq<string>)
    requires |numbers| == 10
    ensures |layout| == 12 && DigitSlots(layout) == numbers
  {
    numbers[..9] + [Blank, numbers[9], Blank]
  }

  /** All the draws of one shuffle of the ten digits (i from 9 down to 1). */
  predicate FullSwaps(swaps: seq<nat>) {
    ValidSwaps(swaps, 10) && |swaps| == 9
  }

  /**
   * shuffleDialPad: shuffles a copy of the ten digits in place, from the
   * last index down to 1, then lays them out in the keypad template.
   */
  method ShuffleDialPad(swaps: seq<nat>) returns (layout: seq<string>)
    requires FullSwaps(swaps)
    ensures layout == Template(Shuffle(Numbers, swaps))
  {
    var numbers := new string[10](k requires 0 <= k < 10 => Numbers[k]);
    var i := 9;
    while i > 0
      invariant 0 <= i <= 9
      invariant numbers[..] == Shuffle(Numbers, swaps[..9 - i])
    {
      var j := swaps[9 - i];
      ghost var before := numbers[..];
      var t := numbers[i];
      numbers[i] := numbers[j];
      numbers[j] := t;
      assert numbers[..] == before[i := before[j]][j := before[i]];
      ShuffleStepUpdate(Numbers, swaps, 9 - i);
      i := i - 1;
    }
    assert swaps[..9] == swaps;
    layout := Template(numbers[..]);
  }

  /**
   * The canonical keypad is the template filled with the unshuffled
   * digits, which is what a shuffle that draws j == i every time yields.
   */
  lemma CanonicalIsUnshuffled()
    ensures FullSwaps(NoSwaps(10))
    ensures CanonicalLayout == Template(Shuffle(Numbers, NoSwaps(10)))
  {
    ShuffleWithoutSwapsIsIdentity(Numbers, NoSwaps(10));
  }

  /** The starting digits, written out. */
  lemma NumbersInOrder()
    ensures Numbers == ["1", "2", "3", "4", "5", "6", "7", "8", "9", "0"]
  {
  }

  /** The canonical keypad, written out. */
  lemma CanonicalInOrder()
    ensures CanonicalLayout == ["1", "2", "3", "4", "5", "6", "7", "8", "9", "", "0", ""]
  {
    NumbersInOrder();
  }

  /** Every outcome of the shuffle, put into the template, is a layout. */
  lemma ShuffledIsLayout(swaps: seq<nat>)
    requires FullSwaps(swaps)
    ensures IsLayout(Template(Shuffle(Numbers, swaps)))
  {
    ShufflePermutes(Numbers, swaps);
    TemplateIsLayout(Shuffle(Numbers, swaps));
  }

  /** A layout has blanks exactly at slots 9 and 11 and a digit key everywhere else. */
  lemma {:induction false} LayoutSlots(layout: seq<string>)
    requires IsLayout(layout)
    ensures forall k :: 0 <= k < 12 ==> (layout[k] == Blank <==> k == 9 || k == 11)
    ensures forall k :: 0 <= k < 12 && k != 9 && k != 11 ==> layout[k] in Numbers
  {
    var slots := DigitSlots(layout);
    NumbersAreDigitKeys();
    forall k | 0 <= k < 12 && k != 9 && k != 11 ensures layout[k] in Numbers {
      var m := if k < 9 then k else 9;
      assert slots[m] == layout[k];
      assert layout[k] in multiset(slots);
    }
  }

  /** The starting digits are digit keys, so none of them is the blank. */
  lemma NumbersAreDigitKeys()
    ensures AllDigitKeys(Numbers) && Blank !in Numbers
  {
    forall k | 0 <= k < 10 ensures Numbers[k] != Blank {
      assert |Numbers[k]| == 1;
    }
  }

  /** The ten starting digits are pairwise different. */
  lemma NumbersDistinct()
    ensures forall a, b :: 0 <= a < b < 10 ==> Numbers[a] != Numbers[b]
  {
    forall a, b | 0 <= a < b < 10 ensures Numbers[a] != Numbers[b] {
      assert Numbers[a][0] as int - '0' as int == (a + 1) % 10;
    }
  }

  /** An element that differs from all others occurs once. */
  lemma CountOnce<T>(s: seq<T>, k: nat)
    requires k < |s|
    requires forall m :: 0 <= m < |s| && m != k ==> s[m] != s[k]
    ensures multiset(s)[s[k]] == 1
  {
    assert s == s[..k] + [s[k]] + s[k + 1..];
    assert s[k] !in s[..k];
    assert s[k] !in s[k + 1..];
  }

  /** A layout holds the ten digits and two blanks. */
  lemma LayoutMultiset(layout: seq<string>)
    requires IsLayout(layout)
    ensures multiset(layout) == multiset(Numbers) + multiset{Blank, Blank}
  {
    SlotsAndBlanks(layout);
  }

  /** The twelve slots are the ten digit slots and slots 9 and 11. */
  lemma SlotsAndBlanks(layout: seq<string>)
    requires |layout| == 12
    ensures multiset(layout) == multiset(DigitSlots(layout)) + multiset{layout[9], layout[11]}
  {
    assert layout == layout[..9] + [layout[9]] + [layout[10]] + [layout[11]];
  }

  /** Every one of the ten digits fills exactly one slot of a layout, and the blank fills two. */
  lemma LayoutHoldsEachDigitOnce(layout: seq<string>, key: string)
    requires IsLayout(layout)
    ensures key in Numbers ==> multiset(layout)[key] == 1
    ensures key == Blank ==> multiset(layout)[key] == 2
    ensures key != Blank && key !in Numbers ==> key !in layout
  {
    if key == Blank {
      BlankFillsTwoSlots(layout);
    } else if key in Numbers {
      DigitFillsOneSlot(layout, key);
    } else {
      LayoutSlots(layout);
      NothingElseInSlots(layout, key);
    }
  }

  /** Each starting digit fills exactly one slot of a layout. */
  lemma DigitFillsOneSlot(layout: seq<string>, key: string)
    requires IsLayout(layout) && key in Numbers
    ensures multiset(layout)[key] == 1
  {
    var k :| 0 <= k < 10 && Numbers[k] == key;
    LayoutMultiset(layout);
    NumbersAreDigitKeys();
    NumberOnce(k);
  }

  /** The blank fills exactly two slots of a layout, and it is not a digit. */
  lemma BlankFillsTwoSlots(layout: seq<string>)
    requires IsLayout(layout)
    ensures multiset(layout)[Blank] == 2 && Blank !in Numbers
  {
    LayoutMultiset(layout);
    NumbersAreDigitKeys();
    assert multiset(Numbers)[Blank] == 0;
  }

  /** Slots that each hold the blank or a digit hold nothing else. */
  lemma NothingElseInSlots(layout: seq<string>, key: string)
    requires forall k :: 0 <= k < |layout| ==> layout[k] == Blank || layout[k] in Numbers
    requires key != Blank && key !in Numbers
    ensures key !in layout
  {
  }

  /** Each starting digit occurs once among the starting digits. */
  lemma NumberOnce(k: nat)
    requires k < 10
    ensures multiset(Numbers)[Numbers[k]] == 1
  {
    NumbersDistinct();
    CountOnce(Numbers, k);
  }

  /** Filling the template with the slots of a layout gives the layout back. */
  lemma TemplateOfSlots(layout: seq<string>)
    requires |layout| == 12 && layout[9] == Blank && layout[11] == Blank
    ensures Template(DigitSlots(layout)) == layout
  {
    var back := Template(DigitSlots(layout));
    forall k | 0 <= k < 12 ensures back[k] == layout[k] {
    }
  }

  /** Filling the template with any arrangement of the ten digits gives a layout. */
  lemma TemplateIsLayout(numbers: seq<string>)
    requires |numbers| == 10 && multiset(numbers) == multiset(Numbers)
    ensures IsLayout(Template(numbers))
  {
  }

  /** Every keypad layout is the outcome of some shuffle. */
  lemma EveryLayoutReachable(layout: seq<string>)
    requires IsLayout(layout)
    ensures exists swaps :: FullSwaps(swaps) && Template(Shuffle(Numbers, swaps)) == layout
  {
    EveryArrangementReachable(Numbers, DigitSlots(layout));
    var swaps :| ValidSwaps(swaps, 10) && |swaps| == 9 && Shuffle(Numbers, swaps) == DigitSlots(layout);
    TemplateOfSlots(layout);
  }

  /**
   * Different draws give different keypads: since the ten digits are
   * distinct, each layout comes from exactly one set of shuffle draws.
   */
  lemma EachLayoutFromOneShuffle(a: seq<nat>, b: seq<nat>)
    requires FullSwaps(a) && FullSwaps(b)
    requires Template(Shuffle(Numbers, a)) == Template(Shuffle(Numbers, b))
    ensures a == b
  {
    NumbersDistinct();
    assert Shuffle(Numbers, a) == DigitSlots(Template(Shuffle(Numbers, a)));
    DrawsDetermineShuffle(Numbers, a, b);
  }
}
