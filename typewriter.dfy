/**
 * The hero banner's typewriter: a state machine over (text index, shown
 * text, deleting flag) that types the current target one character at a
 * time, pauses once it is complete, deletes it again one character at a
 * time, and then moves on to the next target, wrapping around.
 */
module Typewriter {
  /** The three state variables of the banner. */
  datatype HeroState = HeroState(index: nat, text: string, deleting: bool)

  /** One transition: the state it leads to and the delay in milliseconds before it takes effect. */
  datatype Tick = Tick(next: HeroState, delayMs: nat)

  /** The banner's two target texts. */
  const Headline: string := "AI & ML Engineer"
  const Tagline: string := "Crafting Intelligent Solutions for Real-World Challenges"
  const HeroTexts: seq<string> := [Headline, Tagline]

  const TypeSpeed: nat := 100
  const DeleteSpeed: nat := 50
  const PauseMs: nat := 2000

  /** `target.substring(0, end)`: negative ends count as 0, ends past the string as its length. */
  function Substring(target: string, end: int): (r: string)
    ensures r <= target
    ensures |r| == if end < 0 then 0 else if end > |target| then |target| else end
  {
    if end < 0 then "" else if end > |target| then target else target[..end]
  }

  /** What one run of the effect does to the state. */
  function Next(texts: seq<string>, s: HeroState): (t: Tick)
    requires s.index < |texts|
    ensures t.next.index < |texts|
    ensures t.next.index != s.index ==> s.deleting && s.text == "" && |texts| > 1
    ensures t.delayMs == if !s.deleting && s.text == texts[s.index] then PauseMs
                         else if s.deleting && s.text == "" then 0
                         else if s.deleting then DeleteSpeed else TypeSpeed
  {
    var target := texts[s.index];
    if !s.deleting && s.text == target then
      Tick(s.(deleting := true), PauseMs)
    else if s.deleting && s.text == "" then
      Tick(HeroState((s.index + 1) % |texts|, "", false), 0)
    else if s.deleting then
      Tick(s.(text := Substring(target, |s.text| - 1)), DeleteSpeed)
    else
      Tick(s.(text := Substring(target, |s.text| + 1)), TypeSpeed)
  }

  /** The shown text is a prefix of the current target, whose index is in range. */
  predicate Inv(texts: seq<string>, s: HeroState)
  {
    s.index < |texts| && s.text <= texts[s.index]
  }

  lemma NextKeepsInv(texts: seq<string>, s: HeroState)
    requires Inv(texts, s)
    ensures Inv(texts, Next(texts, s).next)
  {
  }

  /** Typing, when not deleting and not yet complete, adds the target's next character. */
  lemma TypingLengthens(texts: seq<string>, s: HeroState)
    requires Inv(texts, s) && !s.deleting && s.text != texts[s.index]
    ensures var n := Next(texts, s).next;
      n.text == s.text + [texts[s.index][|s.text|]] && n.index == s.index && !n.deleting
  {
    var target := texts[s.index];
    assert |s.text| < |target|;
    assert target[..|s.text| + 1] == target[..|s.text|] + [target[|s.text|]];
  }

  /** Deleting, when the text is not empty, removes its last character. */
  lemma DeletingShortens(texts: seq<string>, s: HeroState)
    requires Inv(texts, s) && s.deleting && s.text != ""
    ensures var n := Next(texts, s).next;
      n.text + [s.text[|s.text| - 1]] == s.text && n.index == s.index && n.deleting
  {
    var k := |s.text| - 1;
    assert texts[s.index][..k] == s.text[..k];
    assert s.text[..k] + [s.text[k]] == s.text;
  }

  /** Once the text is deleted, the banner moves to the next target, wrapping around, with an empty text. */
  lemma EmptyTextAdvances(texts: seq<string>, s: HeroState)
    requires Inv(texts, s) && s.deleting && s.text == ""
    ensures Next(texts, s).next == HeroState(if s.index + 1 == |texts| then 0 else s.index + 1, "", false)
  {
  }

  /** A complete text only flips the deleting flag. */
  lemma CompleteTextPauses(texts: seq<string>, s: HeroState)
    requires Inv(texts, s) && !s.deleting && s.text == texts[s.index]
    ensures Next(texts, s).next == HeroState(s.index, s.text, true)
  {
  }

  // ---------------------------------------------------------------------
  // Runs of several ticks

  /** The state after `k` ticks. */
  function Run(texts: seq<string>, s: HeroState, k: nat): (r: HeroState)
    requires Inv(texts, s)
    ensures Inv(texts, r)
    decreases k
  {
    if k == 0 then s
    else
      NextKeepsInv(texts, s);
      Run(texts, Next(texts, s).next, k - 1)
  }

  /** The total delay of `k` ticks. */
  function Elapsed(texts: seq<string>, s: HeroState, k: nat): nat
    requires Inv(texts, s)
    decreases k
  {
    if k == 0 then 0
    else
      NextKeepsInv(texts, s);
      Next(texts, s).delayMs + Elapsed(texts, Next(texts, s).next, k - 1)
  }

  lemma {:induction false} TypeRun(texts: seq<string>, i: nat, j: nat, k: nat)
    requires i < |texts| && j + k <= |texts[i]|
    ensures Run(texts, HeroState(i, texts[i][..j], false), k) == HeroState(i, texts[i][..j + k], false)
    ensures Elapsed(texts, HeroState(i, texts[i][..j], false), k) == k * TypeSpeed
    decreases k
  {
    if k > 0 {
      TypeRun(texts, i, j + 1, k - 1);
    }
  }

  lemma {:induction false} DeleteRun(texts: seq<string>, i: nat, j: nat)
    requires i < |texts| && j <= |texts[i]|
    ensures Run(texts, HeroState(i, texts[i][..j], true), j) == HeroState(i, "", true)
    ensures Elapsed(texts, HeroState(i, texts[i][..j], true), j) == j * DeleteSpeed
    decreases j
  {
    if j > 0 {
      assert texts[i][..j] != "";
      DeleteRun(texts, i, j - 1);
    }
  }

  lemma OneTick(texts: seq<string>, s: HeroState)
    requires Inv(texts, s)
    ensures Run(texts, s, 1) == Next(texts, s).next && Elapsed(texts, s, 1) == Next(texts, s).delayMs
  {
    NextKeepsInv(texts, s);
    assert Run(texts, Next(texts, s).next, 0) == Next(texts, s).next;
  }

  lemma {:induction false} RunAdd(texts: seq<string>, s: HeroState, a: nat, b: nat)
    requires Inv(texts, s)
    ensures Run(texts, s, a + b) == Run(texts, Run(texts, s, a), b)
    ensures Elapsed(texts, s, a + b) == Elapsed(texts, s, a) + Elapsed(texts, Run(texts, s, a), b)
    decreases a
  {
    if a > 0 {
      NextKeepsInv(texts, s);
      RunAdd(texts, Next(texts, s).next, a - 1, b);
    }
  }

  /**
   * A full cycle: starting on an empty text, after typing the whole target,
   * pausing, deleting it and advancing, the banner is on the next target with
   * an empty text again, having spent 150 ms per character plus the pause.
   */
  lemma FullCycle(texts: seq<string>, i: nat)
    requires i < |texts|
    ensures var n := |texts[i]|;
      && Run(texts, HeroState(i, "", false), 2 * n + 2) == HeroState((i + 1) % |texts|, "", false)
      && Elapsed(texts, HeroState(i, "", false), 2 * n + 2) == n * (TypeSpeed + DeleteSpeed) + PauseMs
  {
    var t := texts[i];
    var n := |t|;
    var s0 := HeroState(i, "", false);
    assert t[..0] == "" && t[..n] == t;
    TypeRun(texts, i, 0, n);
    var s1 := HeroState(i, t, false);
    OneTick(texts, s1);
    RunAdd(texts, s0, n, 1);
    DeleteRun(texts, i, n);
    RunAdd(texts, s0, n + 1, n);
    var s3 := HeroState(i, "", true);
    OneTick(texts, s3);
    RunAdd(texts, s0, 2 * n + 1, 1);
  }

  /**
   * On the banner, "AI & ML Engineer" (16 characters) is typed, erased and
   * replaced by the tagline within 2 * 16 + 2 ticks and 4.4 seconds.
   */
  lemma HeroFirstCycle()
    ensures |Headline| == 16
    ensures Run(HeroTexts, HeroState(0, "", false), 2 * |Headline| + 2) == HeroState(1, "", false)
    ensures Elapsed(HeroTexts, HeroState(0, "", false), 2 * |Headline| + 2) == 4400
  {
    assert HeroTexts[0] == Headline && |HeroTexts| == 2;
    FullCycle(HeroTexts, 0);
  }

  // ---------------------------------------------------------------------
  // The component's state, updated in place

  class HeroBanner {
    const texts: seq<string>
    var textIndex: nat
    var currentText: string
    var isDeleting: bool

    function State(): HeroState
      reads this
    {
      HeroState(textIndex, currentText, isDeleting)
    }

    predicate Valid()
      reads this
    {
      Inv(texts, State())
    }

    /** The banner starts on the first target with nothing typed. */
    constructor (targets: seq<string>)
      requires |targets| > 0
      ensures texts == targets && State() == HeroState(0, "", false) && Valid()
    {
      texts := targets;
      textIndex := 0;
      currentText := "";
      isDeleting := false;
    }

    /** One run of the effect, returning the delay after which its update takes effect. */
    method Step() returns (delayMs: nat)
      requires Valid()
      modifies this
      ensures Valid()
      ensures State() == Next(texts, old(State())).next
      ensures delayMs == Next(texts, old(State())).delayMs
    {
      NextKeepsInv(texts, State());
      var target := texts[textIndex];
      if !isDeleting && currentText == target {
        isDeleting := true;
        return PauseMs;
      }
      if isDeleting && currentText == "" {
        isDeleting := false;
        textIndex := (textIndex + 1) % |texts|;
        return 0;
      }
      if isDeleting {
        currentText := Substring(target, |currentText| - 1);
        delayMs := DeleteSpeed;
      } else {
        currentText := Substring(target, |currentText| + 1);
        delayMs := TypeSpeed;
      }
    }
  }
}
