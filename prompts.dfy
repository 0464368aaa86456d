/** Weighted attitude selection and the page-generation prompt built around it. */
module Prompts {
  import opened Wrappers
  import opened Attitudes
  import opened Draws

  /** The weight of the first `n` attitudes: the running sum after the scan has passed them. */
  function PrefixWeight(t: seq<Attitude>, n: nat): int
    requires n <= |t|
  {
    TotalWeight(t[..n])
  }

  /** The weight of the attitudes up to and including position `j`. */
  function WeightThrough(t: seq<Attitude>, j: nat): int
    requires j < |t|
  {
    PrefixWeight(t, j + 1)
  }

  /**
   * The first position at or after `i` whose prefix sum (through that position) reaches
   * the draw `r`, or None when no position does.
   */
  function FirstCovering(t: seq<Attitude>, r: real, i: nat): (k: Option<nat>)
    requires i <= |t|
    ensures k.Some? ==> i <= k.value < |t| && r <= WeightThrough(t, k.value) as real
    ensures k.Some? ==> forall j :: i <= j < k.value ==> r > WeightThrough(t, j) as real
    ensures k.None? ==> forall j :: i <= j < |t| ==> r > WeightThrough(t, j) as real
    decreases |t| - i
  {
    if i == |t| then None
    else if r <= WeightThrough(t, i) as real then Some(i)
    else FirstCovering(t, r, i + 1)
  }

  /** The index the selector returns for draw `r`: the first covering position, else entry 0. */
  function SelectedIndex(t: seq<Attitude>, r: real): (k: nat)
    requires |t| > 0
    ensures k < |t|
  {
    match FirstCovering(t, r, 0)
    case Some(k) => k
    case None => 0
  }

  /**
   * The selector over a weighted table (the source always passes `Table`): scales the
   * uniform draw `u` by the total weight, then walks the table subtracting each weight and
   * returns the first attitude at which the remainder is no longer positive, falling back
   * to the first attitude.
   */
  method GetRandomAttitude(attitudes: seq<Attitude>, u: Fraction) returns (a: Attitude)
    requires |attitudes| > 0
    ensures a == attitudes[SelectedIndex(attitudes, Scale(u, TotalWeight(attitudes)))]
  {
    var totalWeight := TotalWeight(attitudes);
    var random := Scale(u, totalWeight);
    ghost var r := random;
    assert attitudes[..0] == [];
    var i := 0;
    while i < |attitudes|
      invariant 0 <= i <= |attitudes|
      invariant random == r - PrefixWeight(attitudes, i) as real
      invariant FirstCovering(attitudes, r, 0) == FirstCovering(attitudes, r, i)
    {
      PrefixStep(attitudes, i);
      random := random - attitudes[i].weight as real;
      if random <= 0.0 {
        return attitudes[i];
      }
      i := i + 1;
    }
    return attitudes[0];
  }

  /** Prefix sums of positive weights strictly increase. */
  lemma {:induction false} PrefixIncreasing(t: seq<Attitude>, i: nat, j: nat)
    requires PositiveWeights(t)
    requires i < j <= |t|
    ensures PrefixWeight(t, i) < PrefixWeight(t, j)
    decreases j - i
  {
    PrefixStep(t, j - 1);
    if i < j - 1 {
      PrefixIncreasing(t, i, j - 1);
    }
  }

  /** A draw up to the total weight is always covered: the fallback is never taken. */
  lemma {:induction false} NoFallbackBelowTotal(t: seq<Attitude>, r: real)
    requires |t| > 0
    requires r <= TotalWeight(t) as real
    ensures FirstCovering(t, r, 0).Some?
  {
    assert t[..|t|] == t;
    assert WeightThrough(t, |t| - 1) == TotalWeight(t);
  }

  /**
   * With positive weights, a draw in (P(i), P(i+1)] selects entry i and nothing else,
   * so each attitude owns an interval as wide as its weight.
   */
  lemma SelectedBand(t: seq<Attitude>, r: real, i: nat)
    requires PositiveWeights(t)
    requires i < |t|
    requires 0.0 < r <= TotalWeight(t) as real
    ensures SelectedIndex(t, r) == i <==>
            PrefixWeight(t, i) as real < r <= WeightThrough(t, i) as real
  {
    NoFallbackBelowTotal(t, r);
    var k := FirstCovering(t, r, 0).value;
    assert SelectedIndex(t, r) == k;
    if k < i {
      // r is covered by an earlier prefix, which is at most P(i)
      if k + 1 < i {
        PrefixIncreasing(t, k + 1, i);
      }
    } else if k > i {
      // position i was passed over, so r exceeds its prefix sum
      assert r > WeightThrough(t, i) as real;
    } else if 0 < k {
      assert r > WeightThrough(t, k - 1) as real;
    } else {
      assert t[..0] == [];
    }
  }

  /** A draw exactly on a prefix-sum boundary selects the earlier attitude (the test is `<= 0`). */
  lemma BoundaryPicksEarlier(t: seq<Attitude>, i: nat)
    requires PositiveWeights(t)
    requires i < |t|
    ensures SelectedIndex(t, WeightThrough(t, i) as real) == i
  {
    var r := WeightThrough(t, i) as real;
    if 0 < i {
      PrefixIncreasing(t, i, i + 1);
    } else {
      assert t[..0] == [];
      PrefixStep(t, 0);
    }
    assert t[..|t|] == t;
    if i + 1 < |t| {
      PrefixIncreasing(t, i + 1, |t|);
    }
    SelectedBand(t, r, i);
  }

  /** A zero draw and a draw of exactly 30 both give "Normal". */
  lemma ZeroAndThirtyGiveNormal()
    ensures Table[SelectedIndex(Table, 0.0)].name == "Normal"
    ensures Table[SelectedIndex(Table, 30.0)].name == "Normal"
  {
    TableWeights();
    BoundaryPicksEarlier(Table, 0);
    PrefixStep(Table, 0);
    assert Table[..0] == [];
    assert FirstCovering(Table, 0.0, 0) == Some(0);
  }

  /** The fixed opening of every prompt, before the path. */
  const Lead: string := "Generate a simple static HTML page for the route "

  /** The fixed instructions between the attitude's style and the closing label. */
  const Instructions: string :=
    "\n\nThe page must be highly engaging\U{2014}encourage visitors to stay as long as possible\U{2014}"
    + "without any back-end or dead controls. If a well-known site is mentioned, try your best to "
    + "recreate it to the best of your ability while maintaining the chosen attitude.\n\n"
    + "Do not include:\n- Comments\n- External stylesheets or scripts\n- Unscrollable content\n"
    + "- Buttons that won't work\n- Code blocks\n\n"
    + "Instead, embed concise, \"gimmicky\" front-end features directly in the HTML. Reply without "
    + "code blocks, start with <html> and end with </html>.\n\n"

  /** The label that closes every prompt. */
  const Closing: string := "Current Attitude: "

  /** The fixed text of a prompt: before the path, after the style, and before the name. */
  datatype Template = Template(lead: string, instructions: string, closing: string)

  /** The template `generatePagePrompt` fills. */
  const PageTemplate := Template(Lead, Instructions, Closing)

  /**
   * The prompt for `fullPath` under attitude `a`: the template's lead, the path verbatim,
   * ", " and the attitude's style, the instructions, and the closing label with the name
   * of the same attitude.
   */
  function Fill(t: Template, fullPath: string, a: Attitude): (p: string)
    ensures |p| == |t.lead| + |fullPath| + 2 + |a.style| + |t.instructions| + |t.closing| + |a.name|
    ensures p[..|t.lead|] == t.lead
    ensures p[|t.lead|..|t.lead| + |fullPath|] == fullPath
    ensures p[|t.lead| + |fullPath|..|t.lead| + |fullPath| + 2 + |a.style|] == ", " + a.style
    ensures p[|p| - |t.closing| - |a.name|..] == t.closing + a.name
  {
    Layout(t.lead, fullPath, a.style, t.instructions, t.closing, a.name);
    t.lead + fullPath + ", " + a.style + t.instructions + t.closing + a.name
  }

  /** Where each part of a prompt sits, for any parts. */
  lemma Layout(lead: string, path: string, style: string, body: string, closing: string, name: string)
    ensures var p := lead + path + ", " + style + body + closing + name;
            && |p| == |lead| + |path| + 2 + |style| + |body| + |closing| + |name|
            && p[..|lead|] == lead
            && p[|lead|..|lead| + |path|] == path
            && p[|lead| + |path|..|lead| + |path| + 2 + |style|] == ", " + style
            && p[|p| - |closing| - |name|..] == closing + name
  {
    var head := lead + path + ", " + style;
    var p := head + body + closing + name;
    assert p[..|head|] == head;
    assert head[..|lead|] == lead;
    assert head[|lead|..|lead| + |path|] == path;
    assert head[|lead| + |path|..] == ", " + style;
    assert p == (head + body) + (closing + name);
  }

  /** The page template opens with the route instruction and closes with the attitude label. */
  lemma PageTemplateText()
    ensures PageTemplate.lead == "Generate a simple static HTML page for the route "
    ensures PageTemplate.closing == "Current Attitude: "
    ensures |PageTemplate.instructions| > 0
  {
  }

  /**
   * The path is never shortened: under one attitude, two prompts are equal only when
   * their paths are, so a path of any length can be read back out of its prompt.
   */
  lemma PromptKeepsWholePath(t: Template, path1: string, path2: string, a: Attitude)
    requires Fill(t, path1, a) == Fill(t, path2, a)
    ensures path1 == path2
  {
    var p := Fill(t, path1, a);
    assert |path1| == |path2|;
    assert path1 == p[|t.lead|..|t.lead| + |path1|] == path2;
  }

  /**
   * The whole generator: draws an attitude from the table with `u` and fills the page
   * template with the path and that attitude; the style and the name come from the same one.
   */
  method GeneratePagePrompt(fullPath: string, u: Fraction) returns (prompt: string)
    ensures prompt == Fill(PageTemplate, fullPath, Table[SelectedIndex(Table, Scale(u, TotalWeight(Table)))])
  {
    TableShape();
    var attitude := GetRandomAttitude(Table, u);
    prompt := Fill(PageTemplate, fullPath, attitude);
  }
}
