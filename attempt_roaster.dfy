/**
 * `attemptRoaster(count)`: the toast shown on the `count`-th attempt to join
 * without a room id.
 */
module AttemptRoaster {
  import NumberText

  /** The messages for specific attempt counts. */
  const AttemptToastMap: map<int, string> := map[
    0 := "Try adding Room ID first?",
    1 := "Really?",
    2 := "What are you expecting?",
    3 := "Why are we still here?",
    4 := "Just... why?",
    5 := "Still going strong, huh?",
    6 := "Persistence or stubbornness?",
    7 := "Achievement unlocked: Maximum Attempts",
    8 := "This is getting awkward",
    9 := "You must really like this button",
    10 := "\U{1F926}\U{200D}\U{2642}\U{FE0F}",
    11 := "*slow clap*",
    12 := "Legend says they're still clicking",
    13 := "Have you tried turning it off and on again?",
    14 := "Maybe take a coffee break?",
    15 := "Are we having fun yet?",
    25 := "\U{1F389} Congratulations! You've unlocked the secret clicking championship!",
    26 := "\U{1F3C6} Your dedication is... concerning but impressive",
    27 := "\U{1F3B8} Never gonna give you up, never gonna let you down...",
    30 := "\U{1F984} A wild unicorn appears! It judges you silently.",
    33 := "\U{1F3A8} You could have painted a masterpiece in this time",
    35 := "\U{1F31F} Achievement Unlocked: Supreme Master of Pointless Clicking"
  ]

  /** `Attempt #${count}` */
  function AttemptPrefix(count: int): string
  {
    "Attempt #" + NumberText.IntToString(count)
  }

  function AttemptRoaster(count: int): (r: string)
    ensures count > 35 ==> r == AttemptPrefix(count) + "... I'm not even mad, I'm impressed"
    ensures count <= 35 && count in AttemptToastMap ==> r == AttemptToastMap[count]
    ensures count <= 35 && count !in AttemptToastMap ==> r == AttemptPrefix(count) + "... I'm running out of things to say"
  {
    if count > 35 then AttemptPrefix(count) + "... I'm not even mad, I'm impressed"
    else if count in AttemptToastMap then AttemptToastMap[count]
    else AttemptPrefix(count) + "... I'm running out of things to say"
  }

  /** The mapped counts are 0 to 15 and six counts between 25 and 35. */
  lemma MappedCounts()
    ensures forall k :: k in AttemptToastMap <==>
      0 <= k <= 15 || k == 25 || k == 26 || k == 27 || k == 30 || k == 33 || k == 35
  {
  }

  /** Every count up to 35 either has its own message or gets the fallback; all mapped counts are at most 35. */
  lemma MappedCountsReachable(count: int)
    ensures count in AttemptToastMap ==> 0 <= count <= 35 && AttemptRoaster(count) == AttemptToastMap[count]
  {
    MappedCounts();
  }
}

/** The cases of `attemptRoaster.test.ts`. */
module AttemptRoasterExamples {
  import NumberText
  import opened AttemptRoaster

  lemma MappedExamples()
    ensures AttemptRoaster.AttemptRoaster(0) == "Try adding Room ID first?"
    ensures AttemptRoaster.AttemptRoaster(5) == "Still going strong, huh?"
    ensures AttemptRoaster.AttemptRoaster(25) == "\U{1F389} Congratulations! You've unlocked the secret clicking championship!"
  {
  }

  lemma CountTexts()
    ensures NumberText.NatToString(16) == "16"
    ensures NumberText.NatToString(36) == "36"
    ensures NumberText.NatToString(100) == "100"
  {
    assert NumberText.NatToString(10) == "10";
  }

  lemma UnmappedExample()
    ensures AttemptRoaster.AttemptRoaster(16) == "Attempt #" + "16" + "... I'm running out of things to say"
  {
    MappedCounts();
    CountTexts();
  }

  lemma ImpressedExamples()
    ensures AttemptRoaster.AttemptRoaster(36) == "Attempt #" + "36" + "... I'm not even mad, I'm impressed"
    ensures AttemptRoaster.AttemptRoaster(100) == "Attempt #" + "100" + "... I'm not even mad, I'm impressed"
  {
    CountTexts();
  }
}
