/** The mindful challenge that earns an early unlock (TaskChallenge): four
    kinds of challenge, each with its own completion rule, and one sticky
    `challengeCompleted` flag that shows the unlock button. */
module Challenge {
  import opened Wrappers
  import opened Text

  datatype Kind = Breathing | Gratitude | Intention | Reflection

  /** Breaths needed for the breathing challenge. */
  const BreathTarget: nat := 10
  /** Characters needed, after trimming, for the intention and reflection challenges. */
  const ReflectionMinLength: nat := 50
  /** Number of gratitude slots. */
  const GratitudeSlots: nat := 3

  /** Every gratitude slot holds something after trimming. */
  predicate GratitudeSatisfied(items: seq<string>) {
    forall i :: 0 <= i < |items| ==> Trim(items[i]) != []
  }

  /** The free text is long enough once trimmed (JavaScript length). */
  predicate ReflectionSatisfied(text: string) {
    Utf16Length(Trim(text)) >= ReflectionMinLength
  }

  predicate HasVisibleChar(s: string) {
    exists j :: 0 <= j < |s| && !IsWhitespace(s[j])
  }

  /** A gratitude list is satisfied exactly when each slot has a character
      that is not whitespace; a blank or whitespace-only slot keeps it unmet. */
  lemma GratitudeSatisfiedIff(items: seq<string>)
    ensures GratitudeSatisfied(items) <==> forall i :: 0 <= i < |items| ==> HasVisibleChar(items[i])
  {
    forall i | 0 <= i < |items|
      ensures Trim(items[i]) != [] <==> HasVisibleChar(items[i])
    {
      if !HasVisibleChar(items[i]) {
        assert AllWhitespace(items[i]);
      }
    }
  }

  /** Whitespace typed around the text does not count towards the minimum. */
  lemma ReflectionIgnoresPadding(w1: string, text: string, w2: string)
    requires AllWhitespace(w1) && AllWhitespace(w2)
    ensures ReflectionSatisfied(w1 + text + w2) <==> ReflectionSatisfied(text)
  {
    TrimIgnoresPadding(w1, text, w2);
  }

  /** For text in the Basic Multilingual Plane the threshold is plain
      character count: 49 trimmed characters are not enough, 50 are. */
  lemma ReflectionThresholdBmp(text: string)
    requires forall i :: 0 <= i < |text| ==> text[i] as int < 0x1_0000
    ensures ReflectionSatisfied(text) <==> |Trim(text)| >= ReflectionMinLength
  {
    var t := Trim(text);
    forall i | 0 <= i < |t| ensures t[i] as int < 0x1_0000 {
      assert t[i] in text;
    }
  }

  class TaskChallenge {
    var selectedChallenge: Option<Kind>
    var challengeCompleted: bool
    var reflectionText: string
    var breathingCount: nat
    var gratitudeItems: seq<string>

    /** The counter stays within the target, there are always three gratitude
        slots, and whatever rule has been met has set the completion flag. */
    ghost predicate Valid()
      reads this
    {
      && |gratitudeItems| == GratitudeSlots
      && breathingCount <= BreathTarget
      && (breathingCount >= BreathTarget ==> challengeCompleted)
      && (GratitudeSatisfied(gratitudeItems) ==> challengeCompleted)
      && (ReflectionSatisfied(reflectionText) ==> challengeCompleted)
    }

    /** Mounting the component: nothing chosen, nothing done. */
    constructor ()
      ensures Valid()
      ensures selectedChallenge == None && !challengeCompleted
      ensures reflectionText == "" && breathingCount == 0 && gratitudeItems == ["", "", ""]
    {
      selectedChallenge := None;
      challengeCompleted := false;
      reflectionText := "";
      breathingCount := 0;
      var blank := ["", "", ""];
      assert Trim(blank[0]) == [];
      gratitudeItems := blank;
    }

    /** The unlock button is on screen: a challenge is open and the flag is set. */
    function UnlockShown(): (shown: bool)
      reads this
      ensures shown ==> challengeCompleted
    {
      selectedChallenge.Some? && challengeCompleted
    }

    /** Clicking one of the four cards of the selection grid. */
    method SelectChallenge(kind: Kind)
      requires Valid() && selectedChallenge == None
      modifies this
      ensures Valid()
      ensures selectedChallenge == Some(kind)
      ensures challengeCompleted == old(challengeCompleted) && reflectionText == old(reflectionText)
      ensures breathingCount == old(breathingCount) && gratitudeItems == old(gratitudeItems)
    {
      selectedChallenge := Some(kind);
    }

    /** "Choose Different": back to the grid; progress and the flag are kept. */
    method ChooseDifferent()
      requires Valid() && selectedChallenge.Some?
      modifies this
      ensures Valid()
      ensures selectedChallenge == None
      ensures challengeCompleted == old(challengeCompleted) && reflectionText == old(reflectionText)
      ensures breathingCount == old(breathingCount) && gratitudeItems == old(gratitudeItems)
    {
      selectedChallenge := None;
    }

    /** "Breathe": one more breath; the button is disabled from the tenth on. */
    method BreathingStep()
      requires Valid() && selectedChallenge == Some(Breathing) && breathingCount < BreathTarget
      modifies this
      ensures Valid()
      ensures breathingCount == old(breathingCount) + 1
      ensures challengeCompleted <==> old(challengeCompleted) || breathingCount >= BreathTarget
      ensures selectedChallenge == old(selectedChallenge) && reflectionText == old(reflectionText)
      ensures gratitudeItems == old(gratitudeItems)
    {
      var newCount := breathingCount + 1;
      breathingCount := newCount;
      if newCount >= BreathTarget {
        challengeCompleted := true;
      }
    }

    /** Typing into gratitude slot `index`: only that slot changes. */
    method GratitudeChange(index: nat, value: string)
      requires Valid() && selectedChallenge == Some(Gratitude) && index < GratitudeSlots
      modifies this
      ensures Valid()
      ensures |gratitudeItems| == GratitudeSlots && gratitudeItems[index] == value
      ensures forall j :: 0 <= j < GratitudeSlots && j != index ==> gratitudeItems[j] == old(gratitudeItems)[j]
      ensures challengeCompleted <==> old(challengeCompleted) || GratitudeSatisfied(gratitudeItems)
      ensures selectedChallenge == old(selectedChallenge) && reflectionText == old(reflectionText)
      ensures breathingCount == old(breathingCount)
    {
      var newItems := gratitudeItems;
      newItems := newItems[index := value];
      gratitudeItems := newItems;
      if GratitudeSatisfied(newItems) {
        challengeCompleted := true;
      }
    }

    /** Typing into the text area shared by the intention and reflection challenges. */
    method ReflectionChange(value: string)
      requires Valid()
      requires selectedChallenge == Some(Intention) || selectedChallenge == Some(Reflection)
      modifies this
      ensures Valid()
      ensures reflectionText == value
      ensures challengeCompleted <==> old(challengeCompleted) || ReflectionSatisfied(value)
      ensures selectedChallenge == old(selectedChallenge) && gratitudeItems == old(gratitudeItems)
      ensures breathingCount == old(breathingCount)
    {
      reflectionText := value;
      if ReflectionSatisfied(value) {
        challengeCompleted := true;
      }
    }
  }
}
