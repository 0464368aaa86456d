/**
 * Random example paths for the landing page: "/" + (a theme or an adjective) + "-" + a noun,
 * and a list of five distinct ones. The random draws are parameters.
 */
module RandomPaths {
  import opened Wrappers
  import opened Draws

  const Adjectives: seq<string> := [
    "delulu", "rizzed-up", "based", "cheugy", "sus", "gyatt-powered", "slayful", "feral",
    "capybara-certified", "goofy-ahh", "sigmafied", "yeet-ready", "grimace-shaked",
    "vibe-checked", "unserious", "skibidi", "bruhmoment", "npc-core", "doomscrolling",
    "meme-lord"
  ]

  const Nouns: seq<string> := [
    "vibe-shack", "brainrot-zone", "side-quest", "meme-vault", "core-memory", "grindset-hub",
    "shenanigan-bunker", "doom-den", "goon-cave", "stan-council", "fan-cam", "capybara-lounge",
    "rat-kingdom", "froggy-summit", "hydration-station", "riz-dojo", "silly-goose-club",
    "blorbo-court", "chaos-chamber", "yap-parliament"
  ]

  const Themes: seq<string> := [
    "skibidi-toilet", "corecore", "fan-cam", "girl-dinner", "doomscroll", "frogcore", "cursed",
    "capybara-core", "deluluverse", "hydration-nation", "meme-apocalypse", "blorboverse",
    "ratwave", "sigmawave", "slaypunk", "yapwave", "chaoscore", "brainrot", "feralwave",
    "gyattwave"
  ]

  /** The three word lists a path is made from. */
  datatype Vocabulary = Vocabulary(adjectives: seq<string>, nouns: seq<string>, themes: seq<string>)

  /** The lists the site uses. */
  const Words := Vocabulary(Adjectives, Nouns, Themes)

  /** Every list has a word to pick. */
  predicate Usable(v: Vocabulary) {
    |v.adjectives| > 0 && |v.nouns| > 0 && |v.themes| > 0
  }

  /** The site's lists hold twenty words each. */
  lemma WordsShape()
    ensures |Words.adjectives| == 20 && |Words.nouns| == 20 && |Words.themes| == 20
    ensures Usable(Words)
  {
  }

  /** `Math.floor(u * n)`: always an index of a list of `n` entries. */
  function Pick(u: Fraction, n: nat): (i: int)
    requires n > 0
    ensures 0 <= i < n
  {
    Scale(u, n).Floor
  }

  /** The three draws one path uses: the coin, the first word, the noun. */
  datatype Draw = Draw(coin: Fraction, word: Fraction, noun: Fraction)

  /** Every path the generator can produce from `v`. */
  function Candidates(v: Vocabulary): set<string> {
    set w, n | w in v.themes + v.adjectives && n in v.nouns :: "/" + w + "-" + n
  }

  /** The first word of a path: a theme when the coin is above one half, else an adjective. */
  function FirstWord(v: Vocabulary, d: Draw): (w: string)
    requires Usable(v)
    ensures d.coin > 0.5 ==> w in v.themes
    ensures d.coin <= 0.5 ==> w in v.adjectives
  {
    if d.coin > 0.5 then v.themes[Pick(d.word, |v.themes|)]
    else v.adjectives[Pick(d.word, |v.adjectives|)]
  }

  /** The noun that ends a path. */
  function NounOf(v: Vocabulary, d: Draw): (n: string)
    requires Usable(v)
    ensures n in v.nouns
  {
    v.nouns[Pick(d.noun, |v.nouns|)]
  }

  /** `generateRandomPath`: "/", the first word, "-", the noun. */
  function GenerateRandomPath(v: Vocabulary, d: Draw): (p: string)
    requires Usable(v)
    ensures p in Candidates(v)
  {
    var w, n := FirstWord(v, d), NounOf(v, d);
    assert w in v.themes + v.adjectives;
    assert "/" + w + "-" + n in Candidates(v);
    "/" + w + "-" + n
  }

  /** A path splits back into its first word and its noun at the known positions. */
  lemma PathParts(v: Vocabulary, d: Draw)
    requires Usable(v)
    ensures var p, w, n := GenerateRandomPath(v, d), FirstWord(v, d), NounOf(v, d);
            |p| == 2 + |w| + |n| && p[0] == '/' && p[1 + |w|] == '-' &&
            p[1..1 + |w|] == w && p[|p| - |n|..] == n
  {
  }

  /** The coin must land strictly above one half for a theme: at one half it is an adjective. */
  lemma CoinBoundary()
    ensures FirstWord(Words, Draw(0.75, 0.0, 0.0)) == "skibidi-toilet"
    ensures FirstWord(Words, Draw(0.5, 0.0, 0.0)) == "delulu"
  {
    WordsShape();
    assert Pick(0.0, 20) == 0;
  }

  /** The path of each draw, in order. */
  function Generated(v: Vocabulary, draws: seq<Draw>): (ps: seq<string>)
    requires Usable(v)
    ensures |ps| == |draws|
  {
    if draws == [] then []
    else Generated(v, draws[..|draws| - 1]) + [GenerateRandomPath(v, draws[|draws| - 1])]
  }

  /** The `i`-th generated path is the path of the `i`-th draw. */
  lemma {:induction false} GeneratedAt(v: Vocabulary, draws: seq<Draw>, i: nat)
    requires Usable(v)
    requires i < |draws|
    ensures Generated(v, draws)[i] == GenerateRandomPath(v, draws[i])
    decreases |draws|
  {
    if i < |draws| - 1 {
      GeneratedAt(v, draws[..|draws| - 1], i);
    }
  }

  predicate Distinct(ps: seq<string>) {
    forall i, j :: 0 <= i < j < |ps| ==> ps[i] != ps[j]
  }

  /** What a Set turned into an array holds: each value once, in the order first added. */
  function InsertionOrder(ps: seq<string>): (r: seq<string>)
    ensures |r| <= |ps|
  {
    if ps == [] then []
    else
      var prev := InsertionOrder(ps[..|ps| - 1]);
      var last := ps[|ps| - 1];
      if last in prev then prev else prev + [last]
  }

  /** The array lists each added value exactly once and nothing else. */
  lemma {:induction false} InsertionOrderFacts(ps: seq<string>)
    ensures Distinct(InsertionOrder(ps))
    ensures forall p :: p in InsertionOrder(ps) <==> p in ps
  {
    if ps != [] {
      var init, last := ps[..|ps| - 1], ps[|ps| - 1];
      InsertionOrderFacts(init);
      assert ps == init + [last];
      var prev := InsertionOrder(init);
      if last !in prev {
        var r := prev + [last];
        forall i, j | 0 <= i < j < |r| ensures r[i] != r[j] {
          assert r[i] == prev[i];
          if j < |prev| {
            assert r[j] == prev[j];
          }
        }
      }
    }
  }

  /** Adding one more value grows the set by at most one and never shrinks it. */
  lemma InsertionOrderStep(ps: seq<string>, p: string)
    ensures var before, after := InsertionOrder(ps), InsertionOrder(ps + [p]);
            after == (if p in before then before else before + [p])
  {
    assert (ps + [p])[..|ps|] == ps;
  }

  /** The collected paths after the first `k` generated paths. */
  function CollectedAfter(ps: seq<string>, k: nat): seq<string>
    requires k <= |ps|
  {
    InsertionOrder(ps[..k])
  }

  /** One more path joins the collection unless it is already there. */
  lemma CollectStep(ps: seq<string>, i: nat)
    requires i < |ps|
    ensures var before := CollectedAfter(ps, i);
            CollectedAfter(ps, i + 1) == (if ps[i] in before then before else before + [ps[i]])
  {
    assert ps[..i + 1] == ps[..i] + [ps[i]];
    InsertionOrderStep(ps[..i], ps[i]);
  }

  /** One loop turn adds at most one path and removes none. */
  lemma CollectGrows(ps: seq<string>, i: nat)
    requires i < |ps|
    ensures |CollectedAfter(ps, i)| <= |CollectedAfter(ps, i + 1)| <= |CollectedAfter(ps, i)| + 1
  {
    CollectStep(ps, i);
  }

  /** The number of collected paths never decreases from one path to the next. */
  lemma {:induction false} CollectedMonotone(ps: seq<string>, j: nat, k: nat)
    requires j <= k <= |ps|
    ensures |CollectedAfter(ps, j)| <= |CollectedAfter(ps, k)|
    decreases k - j
  {
    if j < k {
      CollectedMonotone(ps, j, k - 1);
      CollectGrows(ps, k - 1);
    }
  }

  /**
   * `examplePaths`: draw paths into a set until it holds five, then list them in the
   * order they were added. The loop consumes `draws` in order; `used` says how many it
   * took. Should the draws run out first, there is no list.
   */
  method ExamplePaths(v: Vocabulary, draws: seq<Draw>) returns (paths: Option<seq<string>>, used: nat)
    requires Usable(v)
    ensures used <= |draws|
    ensures forall k :: 0 <= k < used ==> |CollectedAfter(Generated(v, draws), k)| < 5
    ensures paths.Some? ==> paths.value == CollectedAfter(Generated(v, draws), used) && |paths.value| == 5
    ensures paths.None? ==> used == |draws| && |CollectedAfter(Generated(v, draws), used)| < 5
  {
    ghost var ps := Generated(v, draws);
    var collected: seq<string> := [];
    assert ps[..0] == [];
    var i := 0;
    while |collected| < 5 && i < |draws|
      invariant 0 <= i <= |draws|
      invariant collected == CollectedAfter(ps, i)
      invariant |collected| <= 5
      invariant i > 0 ==> |CollectedAfter(ps, i - 1)| < 5
    {
      var p := GenerateRandomPath(v, draws[i]);
      GeneratedAt(v, draws, i);
      CollectStep(ps, i);
      if p !in collected {
        collected := collected + [p];
      }
      i := i + 1;
    }
    used := i;
    forall k | 0 <= k < used
      ensures |CollectedAfter(ps, k)| < 5
    {
      CollectedMonotone(ps, k, used - 1);
    }
    if |collected| == 5 {
      paths := Some(collected);
    } else {
      paths := None;
    }
  }

  /** The listed paths are distinct paths the generator can produce. */
  lemma ExamplePathsAreCandidates(v: Vocabulary, draws: seq<Draw>, k: nat)
    requires Usable(v)
    requires k <= |draws|
    ensures Distinct(CollectedAfter(Generated(v, draws), k))
    ensures forall p :: p in CollectedAfter(Generated(v, draws), k) ==> p in Candidates(v)
  {
    var gen := Generated(v, draws);
    InsertionOrderFacts(gen[..k]);
    forall p | p in CollectedAfter(gen, k) ensures p in Candidates(v) {
      assert p in gen[..k];
      var i :| 0 <= i < k && gen[i] == p;
      GeneratedAt(v, draws, i);
    }
  }
}
