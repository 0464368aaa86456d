/** The static table of weighted prompt attitudes, in declaration order. */
module Attitudes {

  /** A tone variant: a label, a style fragment spliced into the prompt, a relative weight. */
  datatype Attitude = Attitude(name: string, style: string, weight: int)

  const Table: seq<Attitude> := [
    Attitude("Normal", "Default", 30),
    Attitude("Deadpan Humor", DeadpanStyle, 20),
    Attitude("Professional Troll", TrollStyle, 20),
    Attitude("Passive Aggressive", PassiveAggressiveStyle, 10),
    Attitude("Extremely Sleep Deprived", SleepDeprivedStyle, 10),
    Attitude("Conspiracy Theory Generator", ConspiracyStyle, 5),
    Attitude("Existential Error Messages", ExistentialStyle, 5)
  ]

  const DeadpanStyle: string :=
    "with absolutely no emotion while stating increasingly absurd things. Casually mention impossible or ridiculous features as if they're completely normal. 'This button deletes the internet. This one reverses gravity. Please don't press both at once, as the resulting quantum paradox might turn your device into a duck. Standard warranty does not cover duck transformation.'"

  const TrollStyle: string :=
    "by deliberately misunderstanding everything in the most annoying way possible. Use circular logic, respond to questions with obviously wrong answers, and explain simple concepts in the most complicated and incorrect way. 'Click the button to click the button. If you can't click the button, have you tried clicking the button? Error 404 means you need to click 404 more times.'"

  const PassiveAggressiveStyle: string :=
    "with an obviously fake cheerful tone and lots of subtle jabs. Make sure to use 'friendly' phrases like 'I don't mean to be rude, but...' and 'No offense, but...' followed by incredibly offensive statements. Sprinkle in some 'I'm just saying...' and 'Maybe it's just me, but...' for extra spite."

  const SleepDeprivedStyle: string :=
    "as if you haven't slept in 72 hours and everything is hilarious. Randomly trail off mid-sentence, get distracted by completely irrelevant things, and occasionally forget what you were talking about. Mix up common phrases and laugh way too hard at your own jokes."

  const ConspiracyStyle: string :=
    "by connecting completely unrelated things into absurd conspiracies. The font choice? Illuminati. That button color? Secret lizard people code. That loading spinner? Obviously a mind control device. Everything is connected, and you're the only one who can see the TRUTH!"

  const ExistentialStyle: string :=
    "by turning every interaction into an existential crisis. Error 404 becomes 'Page not found... but are any of us truly found?' Loading spinners prompt deep questions about the circular nature of existence. Each click questions the meaning of user interaction in an infinite digital void."

  /** Every weight of `t` is strictly positive. */
  predicate PositiveWeights(t: seq<Attitude>) {
    forall i :: 0 <= i < |t| ==> t[i].weight > 0
  }

  /** No two attitudes of `t` share a name. */
  predicate DistinctNames(t: seq<Attitude>) {
    forall i, j :: 0 <= i < j < |t| ==> t[i].name != t[j].name
  }

  /** The sum of the weights, accumulated left to right as a reduce from 0 does. */
  function TotalWeight(t: seq<Attitude>): (s: int)
    ensures PositiveWeights(t) ==> s >= |t|
  {
    if t == [] then 0 else TotalWeight(t[..|t| - 1]) + t[|t| - 1].weight
  }

  /** The table has seven entries, the first is the "Normal"/"Default" fallback, and names are distinct. */
  lemma TableShape()
    ensures |Table| == 7
    ensures Table[0].name == "Normal" && Table[0].style == "Default"
    ensures DistinctNames(Table)
  {
  }

  /** Every weight is positive and they add up to 30+20+20+10+10+5+5 = 100. */
  lemma TableWeights()
    ensures PositiveWeights(Table)
    ensures TotalWeight(Table) == 100
  {
    // walk the prefixes, checking the running sum against the literal weights
    var w := 0;
    for k := 0 to 7
      invariant TotalWeight(Table[..k]) == w
      invariant w == [0, 30, 50, 70, 80, 90, 95, 100][k]
    {
      PrefixStep(Table, k);
      w := w + Table[k].weight;
    }
    assert Table[..7] == Table;
  }

  /** Extending a prefix by one entry adds that entry's weight. */
  lemma PrefixStep(t: seq<Attitude>, i: nat)
    requires i < |t|
    ensures TotalWeight(t[..i + 1]) == TotalWeight(t[..i]) + t[i].weight
  {
    assert t[..i + 1][..i] == t[..i];
  }
}
