/**
 * The hero-title typing animation (`initTypeAnimation` / `typeText`). The element's
 * `data-type-text` attribute is split on '|' into texts; each call of `typeText` either ends a
 * pause, types one more character of the current text, or deletes one, and then schedules the
 * next call. The state is the four closure variables plus the text shown and whether another
 * call is scheduled; the delays and the cursor element appended to the text are not modelled.
 */
module TypeAnimation {
  import opened Strings

  datatype TypeState = TypeState(
    textIndex: int,
    charIndex: int,
    isDeleting: bool,
    isPaused: bool,
    shown: string,   // the text part of the element's content
    running: bool)   // another call of typeText is scheduled

  /** JavaScript's `t.substring(0, k)`: the end index is clamped into [0, |t|]. */
  function Prefix(t: string, k: int): (r: string)
    ensures 0 <= k <= |t| ==> r == t[..k]
    ensures k <= 0 ==> r == []
    ensures k >= |t| ==> r == t
  {
    if k <= 0 then [] else if k >= |t| then t else t[..k]
  }

  /** The state at the very start, and whenever a text has just been fully deleted. */
  function Start(i: int): TypeState {
    TypeState(i, 0, false, false, [], true)
  }

  /**
   * How a typing step recognises the end of the text. The page compares with `===`
   * (`ExactLength`); `AtLeastLength` is the corrected comparison, `>=`.
   */
  datatype EndTest = ExactLength | AtLeastLength {
    predicate Reached(charIndex: int, len: int) {
      match this
      case ExactLength => charIndex == len
      case AtLeastLength => charIndex >= len
    }
  }

  /** One call of `typeText`, with the end of a text recognised by `test`. */
  function Advance(texts: seq<string>, s: TypeState, test: EndTest): (r: TypeState)
    requires 0 <= s.textIndex < |texts|
    ensures 0 <= r.textIndex < |texts|
    ensures s.isPaused ==> r == s.(isPaused := false)
    ensures r.charIndex == s.charIndex - 1 || r.charIndex == s.charIndex || r.charIndex == s.charIndex + 1
    ensures r.textIndex != s.textIndex ==> r.textIndex == (s.textIndex + 1) % |texts| && r.charIndex == 0 && !r.isDeleting
    ensures r.running ==> s.running
    ensures s.running && !r.running ==> |texts| == 1 && r.shown == texts[s.textIndex]
  {
    if s.isPaused then s.(isPaused := false)
    else
      var t := texts[s.textIndex];
      if s.isDeleting then
        var c := s.charIndex - 1;
        if c == 0 then
          s.(shown := Prefix(t, c), charIndex := c, isDeleting := false, textIndex := (s.textIndex + 1) % |texts|)
        else
          s.(shown := Prefix(t, c), charIndex := c)
      else
        var c := s.charIndex + 1;
        if test.Reached(c, |t|) then
          if |texts| > 1 then s.(shown := Prefix(t, c), charIndex := c, isPaused := true, isDeleting := true)
          else s.(shown := t, charIndex := c, running := false)
        else
          s.(shown := Prefix(t, c), charIndex := c)
  }

  /** One call of `typeText` as the page has it. */
  function Next(texts: seq<string>, s: TypeState): (r: TypeState)
    requires 0 <= s.textIndex < |texts|
    ensures 0 <= r.textIndex < |texts|
    ensures s.running && !r.running ==> |texts| == 1 && r.charIndex == |texts[s.textIndex]| && r.shown == texts[s.textIndex]
  {
    Advance(texts, s, ExactLength)
  }

  /** `k` further calls, stopping once no call is scheduled. */
  function Iterate(texts: seq<string>, s: TypeState, k: nat, test: EndTest): (r: TypeState)
    requires 0 <= s.textIndex < |texts|
    ensures 0 <= r.textIndex < |texts|
    decreases k
  {
    if k == 0 || !s.running then s else Iterate(texts, Advance(texts, s, test), k - 1, test)
  }

  /** A property of every state reachable from `Start(0)` (some unreachable states have it too). */
  ghost predicate Inv(texts: seq<string>, s: TypeState) {
    && |texts| >= 1
    && 0 <= s.textIndex < |texts|
    && 0 <= s.charIndex
    && var t := texts[s.textIndex];
    && s.shown == Prefix(t, s.charIndex)
    && (s.isPaused ==> s.isDeleting && s.charIndex == |t|)
    && (s.isDeleting ==> |texts| > 1 && s.running && 1 <= s.charIndex <= |t|)
    && (!s.isDeleting && s.running && t != [] ==> s.charIndex < |t|)
    && (!s.running ==> |texts| == 1 && s.charIndex == |t| && !s.isDeleting && !s.isPaused)
  }

  lemma StartInv(texts: seq<string>)
    requires |texts| >= 1
    ensures Inv(texts, Start(0))
  {
  }

  /** Every call keeps the invariant; in particular `textIndex` stays in [0, |texts|). */
  lemma NextPreservesInv(texts: seq<string>, s: TypeState)
    requires Inv(texts, s) && s.running
    ensures Inv(texts, Next(texts, s))
    ensures 0 <= Next(texts, s).textIndex < |texts|
  {
    var t := texts[s.textIndex];
    var r := Next(texts, s);
    if !s.isPaused && s.isDeleting && s.charIndex - 1 == 0 {
      assert r.shown == [] == Prefix(texts[r.textIndex], 0);
    }
  }

  /** A typing call shows one character more of the current text. */
  lemma TypingStep(texts: seq<string>, s: TypeState)
    requires Inv(texts, s) && s.running && !s.isPaused && !s.isDeleting
    ensures var r := Next(texts, s);
      r.textIndex == s.textIndex && r.charIndex == s.charIndex + 1
      && r.shown == Prefix(texts[s.textIndex], s.charIndex + 1)
  {
  }

  /**
   * A deleting call removes one character; when none is left, deleting ends and the next text
   * (cyclically) becomes current.
   */
  lemma DeletingStep(texts: seq<string>, s: TypeState)
    requires Inv(texts, s) && s.running && !s.isPaused && s.isDeleting
    ensures var r := Next(texts, s);
      r.charIndex == s.charIndex - 1 && r.shown == texts[s.textIndex][..s.charIndex - 1]
      && (r.charIndex == 0 ==> !r.isDeleting && r.textIndex == (s.textIndex + 1) % |texts| && r == Start(r.textIndex))
      && (r.charIndex != 0 ==> r.isDeleting && r.textIndex == s.textIndex)
  {
  }

  /**
   * With several texts, typing the last character pauses and switches to deleting; the paused
   * call only lifts the pause.
   */
  lemma PauseBeforeDeleting(texts: seq<string>, s: TypeState)
    requires Inv(texts, s) && s.running && !s.isPaused && !s.isDeleting
    requires |texts| > 1 && s.charIndex + 1 == |texts[s.textIndex]|
    ensures Next(texts, s).isPaused && Next(texts, s).isDeleting
    ensures Next(texts, s).shown == texts[s.textIndex]
    ensures Next(texts, Next(texts, s)) == Next(texts, s).(isPaused := false)
  {
  }

  /** With a single text, the animation never deletes, and stops with the whole text shown. */
  lemma SingleTextStops(texts: seq<string>, s: TypeState)
    requires |texts| == 1 && Inv(texts, s) && s.running
    ensures !s.isDeleting && !Next(texts, s).isDeleting
    ensures s.charIndex + 1 == |texts[0]| ==> !Next(texts, s).running && Next(texts, s).shown == texts[0]
  {
  }

  // ---------------------------------------------------------------------------
  // Runs of several calls

  lemma {:induction false} IterateAdd(texts: seq<string>, s: TypeState, a: nat, b: nat, test: EndTest)
    requires 0 <= s.textIndex < |texts|
    ensures Iterate(texts, s, a + b, test) == Iterate(texts, Iterate(texts, s, a, test), b, test)
    decreases a
  {
    if a > 0 && s.running {
      IterateAdd(texts, Advance(texts, s, test), a - 1, b, test);
    }
  }

  function Typing(texts: seq<string>, i: int, c: int): TypeState
    requires 0 <= i < |texts|
  {
    TypeState(i, c, false, false, Prefix(texts[i], c), true)
  }

  function Deleting(texts: seq<string>, i: int, c: int): TypeState
    requires 0 <= i < |texts|
  {
    TypeState(i, c, true, false, Prefix(texts[i], c), true)
  }

  /** Typing `k` characters of a non-empty text, short of its end. */
  lemma {:induction false} TypingPhase(texts: seq<string>, i: int, c: nat, k: nat, test: EndTest)
    requires 0 <= i < |texts| && c + k < |texts[i]|
    ensures Iterate(texts, Typing(texts, i, c), k, test) == Typing(texts, i, c + k)
    decreases k
  {
    if k > 0 {
      assert Advance(texts, Typing(texts, i, c), test) == Typing(texts, i, c + 1);
      TypingPhase(texts, i, c + 1, k - 1, test);
    }
  }

  /** Deleting `k` characters, short of emptying the text. */
  lemma {:induction false} DeletingPhase(texts: seq<string>, i: int, c: nat, k: nat, test: EndTest)
    requires 0 <= i < |texts| && k < c
    ensures Iterate(texts, Deleting(texts, i, c), k, test) == Deleting(texts, i, c - k)
    decreases k
  {
    if k > 0 {
      assert Advance(texts, Deleting(texts, i, c), test) == Deleting(texts, i, c - 1);
      DeletingPhase(texts, i, c - 1, k - 1, test);
    }
  }

  /**
   * With several texts, a non-empty text is typed, paused on, deleted, and after exactly
   * 2 * |text| + 1 calls the next text starts from nothing.
   */
  lemma Cycle(texts: seq<string>, i: int, test: EndTest)
    requires |texts| > 1 && 0 <= i < |texts| && texts[i] != []
    ensures Iterate(texts, Start(i), 2 * |texts[i]| + 1, test) == Start((i + 1) % |texts|)
  {
    var n := |texts[i]|;
    var paused := TypeState(i, n, true, true, texts[i], true);
    assert Start(i) == Typing(texts, i, 0);
    TypingPhase(texts, i, 0, n - 1, test);
    assert Advance(texts, Typing(texts, i, n - 1), test) == paused;
    assert Advance(texts, paused, test) == Deleting(texts, i, n);
    DeletingPhase(texts, i, n, n - 1, test);
    assert Advance(texts, Deleting(texts, i, 1), test) == Start((i + 1) % |texts|);
    IterateAdd(texts, Start(i), n - 1, 1, test);
    IterateAdd(texts, Start(i), n, 1, test);
    IterateAdd(texts, Start(i), n + 1, n - 1, test);
    IterateAdd(texts, Start(i), 2 * n, 1, test);
  }

  /** With a single non-empty text, |text| calls type it out and stop; no later call changes anything. */
  lemma SingleTextRun(texts: seq<string>, extra: nat)
    requires |texts| == 1 && texts[0] != []
    ensures Iterate(texts, Start(0), |texts[0]| + extra, ExactLength)
      == TypeState(0, |texts[0]|, false, false, texts[0], false)
  {
    var n := |texts[0]|;
    var stopped := TypeState(0, n, false, false, texts[0], false);
    assert Start(0) == Typing(texts, 0, 0);
    TypingPhase(texts, 0, 0, n - 1, ExactLength);
    assert Advance(texts, Typing(texts, 0, n - 1), ExactLength) == stopped;
    IterateAdd(texts, Start(0), n - 1, 1, ExactLength);
    IterateAdd(texts, Start(0), n, extra, ExactLength);
  }

  // ---------------------------------------------------------------------------
  // An empty text

  /**
   * As written, an empty text is never finished: typing it only raises `charIndex`, which never
   * equals the length 0 again, so the animation stays on that text forever.
   */
  lemma {:induction false} EmptyTextNeverEnds(texts: seq<string>, i: int, c: nat, k: nat)
    requires 0 <= i < |texts| && texts[i] == []
    ensures Iterate(texts, Typing(texts, i, c), k, ExactLength) == Typing(texts, i, c + k)
    decreases k
  {
    if k > 0 {
      assert Advance(texts, Typing(texts, i, c), ExactLength) == Typing(texts, i, c + 1);
      EmptyTextNeverEnds(texts, i, c + 1, k - 1);
    }
  }

  /** The attribute "a||b": after three calls the empty middle text is current, and it never ends. */
  lemma EmptyTextExample(k: nat)
    ensures var texts := Split("a||b", '|');
      texts == ["a", "", "b"]
      && Iterate(texts, Start(0), 3 + k, ExactLength).textIndex == 1
      && !Iterate(texts, Start(0), 3 + k, ExactLength).isDeleting
  {
    var texts := ["a", "", "b"];
    assert Split("a||b", '|') == texts by {
      assert "b"[1..] == "";
      assert Split("", '|') == [""];
      assert ['b'] + Split("", '|')[0] == "b";
      assert Split("b", '|') == ["b"];
      assert "|b"[1..] == "b";
      assert Split("|b", '|') == ["", "b"];
      assert "||b"[1..] == "|b";
      assert Split("||b", '|') == ["", "", "b"];
      assert "a||b"[1..] == "||b";
      assert ['a'] + Split("||b", '|')[0] == "a";
      assert Split("||b", '|')[1..] == ["", "b"];
    }
    Cycle(texts, 0, ExactLength);
    assert Start(1) == Typing(texts, 1, 0);
    IterateAdd(texts, Start(0), 3, k, ExactLength);
    EmptyTextNeverEnds(texts, 1, 0, k);
  }

  /** With the corrected end test an empty text is left after three calls. */
  lemma EmptyTextCorrected(texts: seq<string>, i: int)
    requires |texts| > 1 && 0 <= i < |texts| && texts[i] == []
    ensures Iterate(texts, Start(i), 3, AtLeastLength) == Start((i + 1) % |texts|)
  {
    var s1 := Advance(texts, Start(i), AtLeastLength);
    assert s1 == TypeState(i, 1, true, true, [], true);
    var s2 := Advance(texts, s1, AtLeastLength);
    assert s2 == TypeState(i, 1, true, false, [], true);
    assert Advance(texts, s2, AtLeastLength) == Start((i + 1) % |texts|);
  }

  /**
   * With the corrected end test every text, empty or not, is eventually left for the next one,
   * so the animation cycles through all texts.
   */
  lemma CorrectedCycle(texts: seq<string>, i: int)
    requires |texts| > 1 && 0 <= i < |texts|
    ensures var n := if texts[i] == [] then 3 else 2 * |texts[i]| + 1;
      Iterate(texts, Start(i), n, AtLeastLength) == Start((i + 1) % |texts|)
  {
    if texts[i] == [] {
      EmptyTextCorrected(texts, i);
    } else {
      Cycle(texts, i, AtLeastLength);
    }
  }

  // ---------------------------------------------------------------------------
  // The animation object

  /** The animated title: the texts, and the closure variables `typeText` updates. */
  class TypeWriter {
    const texts: seq<string>
    var textIndex: int
    var charIndex: int
    var isDeleting: bool
    var isPaused: bool
    var shown: string
    var running: bool

    function State(): TypeState
      reads this
    {
      TypeState(textIndex, charIndex, isDeleting, isPaused, shown, running)
    }

    ghost predicate Valid()
      reads this
    {
      Inv(texts, State())
    }

    /** The texts are the attribute's pieces between '|' characters; nothing is shown yet. */
    constructor (typeText: string)
      ensures texts == Split(typeText, '|') && Join(texts, '|') == typeText
      ensures State() == Start(0) && Valid()
    {
      texts := Split(typeText, '|');
      textIndex, charIndex := 0, 0;
      isDeleting, isPaused := false, false;
      shown := "";
      running := true;
      JoinSplit(typeText, '|');
    }

    /** One call of typeText. */
    method Step()
      requires Valid() && running
      modifies this
      ensures Valid()
      ensures State() == Next(texts, old(State()))
      ensures 0 <= textIndex < |texts|
    {
      NextPreservesInv(texts, State());
      if isPaused {
        isPaused := false;
        return;
      }
      var currentText := texts[textIndex];
      if isDeleting {
        shown := Prefix(currentText, charIndex - 1);
        charIndex := charIndex - 1;
        if charIndex == 0 {
          isDeleting := false;
          textIndex := (textIndex + 1) % |texts|;
        }
      } else {
        shown := Prefix(currentText, charIndex + 1);
        charIndex := charIndex + 1;
        if charIndex == |currentText| {
          if |texts| > 1 {
            isPaused := true;
            isDeleting := true;
          } else {
            shown := currentText;
            running := false;
          }
        }
      }
    }
  }
}
