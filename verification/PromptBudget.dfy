/** The prompt-budget guard's arithmetic, under the character-count measure (services/adapters/models.py:228-243,
    services/adapters/models.py:326-345, services/adapters/llm.py:517-547). */
module PromptBudget {
  import opened Prelude

  const CHARS_PER_TOKEN := 3
  const MIN_CONTEXT_TOKENS := 128

  /** Ceiling division by the characters a token is worth. */
  function Tokens(chars: nat): nat {
    (chars + CHARS_PER_TOKEN - 1) / CHARS_PER_TOKEN
  }

  function CountTokens(text: string): nat {
    Tokens(|text|)
  }

  /** Cut down to at most `max` tokens' worth of characters. */
  function TruncateTokens(text: string, max: int): string {
    if max <= 0 then ""
    else if |text| <= max * CHARS_PER_TOKEN then text
    else text[..max * CHARS_PER_TOKEN]
  }

  /** The cut agrees with the count: what is left is the longest prefix within the limit. */
  lemma TruncateFits(text: string, max: nat)
    ensures CountTokens(TruncateTokens(text, max)) <= max
    ensures TruncateTokens(text, max) <= text
    ensures TruncateTokens(text, max) == text <==> CountTokens(text) <= max
    ensures forall k :: |TruncateTokens(text, max)| < k <= |text| ==> Tokens(k) > max
  {
  }

  // ----- splicing

  predicate OccursAt(text: string, part: string, i: nat) {
    i + |part| <= |text| && text[i..i + |part|] == part
  }

  /** Where `part` first occurs. */
  function Find(text: string, part: string): (at: Option<nat>)
    ensures at.Some? ==> OccursAt(text, part, at.value)
  {
    if OccursAt(text, part, 0) then Some(0)
    else if text == [] then None
    else
      match Find(text[1..], part)
      case None => None
      case Some(i) =>
        assert text[1..][i..i + |part|] == text[i + 1..i + 1 + |part|];
        Some(i + 1)
  }

  lemma {:induction false} FindsFirst(text: string, part: string, i: nat)
    requires OccursAt(text, part, i)
    ensures Find(text, part).Some? && Find(text, part).value <= i
  {
    if !OccursAt(text, part, 0) {
      assert text[1..][i - 1..i - 1 + |part|] == text[i..i + |part|];
      FindsFirst(text[1..], part, i - 1);
    }
  }

  /** Replace the first occurrence, or nothing when there is none. */
  function Replace(text: string, part: string, with: string): string {
    match Find(text, part)
    case None => text
    case Some(i) => text[..i] + with + text[i + |part|..]
  }

  lemma ReplaceLength(text: string, part: string, with: string)
    ensures |Replace(text, part, with)| == if Find(text, part).Some? then |text| - |part| + |with| else |text|
    ensures Find(text, part).Some? ==> |part| <= |text|
  {
  }

  /** What stood before the replaced part and what stood after it stay as they were, with the new words in between. */
  lemma SplicedWhereItSat(before: string, part: string, after: string, with: string)
    requires var text := before + part + after;
             forall j, k :: 0 <= j < |before| && k == j + |part| <= |text| ==> text[j..k] != part
    ensures Replace(before + part + after, part, with) == before + with + after
  {
    var text := before + part + after;
    assert text[|before|..|before| + |part|] == part;
    FindsFirst(text, part, |before|);
    var at := Find(text, part).value;
    var end := at + |part|;
    assert text[at..end] == part;
    assert text[..|before|] == before && text[|before| + |part|..] == after;
  }

  // ----- the budget

  /** What the instructions around the context already cost. */
  function Overhead(prompt: string, context: string): int {
    CountTokens(prompt) - CountTokens(context)
  }

  /** The room left for the context, floored. */
  function Target(budget: int, overhead: int): nat {
    if budget - overhead > MIN_CONTEXT_TOKENS then budget - overhead else MIN_CONTEXT_TOKENS
  }

  /** The larger of what the instructions leave and the floor. */
  lemma RoomOrFloor(budget: int, overhead: int)
    ensures Target(budget, overhead) >= budget - overhead && Target(budget, overhead) >= 128
    ensures Target(budget, overhead) == budget - overhead || Target(budget, overhead) == 128
  {
  }

  lemma CeilingSplit(whole: nat, part: nat)
    requires part <= whole
    ensures Tokens(whole) - Tokens(part) <= Tokens(whole - part) <= Tokens(whole) - Tokens(part) + 1
    ensures Tokens(whole - part) == Tokens(whole) - Tokens(part) + 1 <==> Overshoots(whole, part)
  {
  }

  /** The two ceilings lose a character between them exactly when their remainders line up this way. */
  predicate Overshoots(whole: nat, part: nat) {
    (part % 3 == 1 && whole % 3 == 2) || (part % 3 == 1 && whole % 3 == 0) || (part % 3 == 2 && whole % 3 == 0)
  }

  lemma WholeTokens(chars: nat, tokens: nat)
    ensures Tokens(chars + CHARS_PER_TOKEN * tokens) == Tokens(chars) + tokens
  {
  }

  lemma Monotone(a: nat, b: nat)
    requires a <= b
    ensures Tokens(a) <= Tokens(b)
  {
  }

  /** The size of the fitted prompt, whatever the summariser came back with. */
  lemma FittedSize(prompt: string, context: string, summary: string, target: nat)
    requires Find(prompt, context).Some? && |summary| <= CHARS_PER_TOKEN * target
    ensures |context| <= |prompt|
    ensures CountTokens(Replace(prompt, context, summary)) <= target + Tokens(|prompt| - |context|)
  {
    ReplaceLength(prompt, context, summary);
    Monotone(|Replace(prompt, context, summary)|, |prompt| - |context| + CHARS_PER_TOKEN * target);
    WholeTokens(|prompt| - |context|, target);
  }

  /** With the context in the prompt the fitted prompt is at most one token over the budget, or over the floor. */
  lemma FittedBound(prompt: string, context: string, reply: string, budget: int)
    requires Find(prompt, context).Some?
    ensures var overhead := Overhead(prompt, context);
            var target := Target(budget, overhead);
            var fitted := Replace(prompt, context, TruncateTokens(reply, target));
            && (budget - overhead >= MIN_CONTEXT_TOKENS ==> CountTokens(fitted) <= budget + 1)
            && (budget - overhead < MIN_CONTEXT_TOKENS ==> CountTokens(fitted) <= overhead + 1 + MIN_CONTEXT_TOKENS)
  {
    var target := Target(budget, Overhead(prompt, context));
    FittedSize(prompt, context, TruncateTokens(reply, target), target);
    CeilingSplit(|prompt|, |context|);
  }

  /** The fitted prompt stays within a room, whatever the summariser says, exactly when target, overhead and the one
      token two ceilings may lose do. */
  lemma WithinRoomExactly(prompt: string, context: string, target: nat, room: int)
    requires Find(prompt, context).Some?
    ensures (forall reply :: CountTokens(Replace(prompt, context, TruncateTokens(reply, target))) <= room)
            <==> target + Overhead(prompt, context) + (if Overshoots(|prompt|, |context|) then 1 else 0) <= room
  {
    CeilingSplit(|prompt|, |context|);
    forall reply: string
      ensures CountTokens(Replace(prompt, context, TruncateTokens(reply, target)))
           <= target + Tokens(|prompt| - |context|)
    {
      FittedSize(prompt, context, TruncateTokens(reply, target), target);
    }
    var longest := seq(CHARS_PER_TOKEN * target, _ => 'x');
    assert TruncateTokens(longest, target) == longest;
    ReplaceLength(prompt, context, longest);
    WholeTokens(|prompt| - |context|, target);
  }

  /** The docstring's promise, a prompt within the budget whatever the summariser says, holds exactly when the
      target was not floored and the remainders do not line up against it. */
  lemma WithinBudgetExactly(prompt: string, context: string, budget: int)
    requires Find(prompt, context).Some?
    ensures var overhead := Overhead(prompt, context);
            var target := Target(budget, overhead);
            (forall reply :: CountTokens(Replace(prompt, context, TruncateTokens(reply, target))) <= budget)
            <==> target + overhead + (if Overshoots(|prompt|, |context|) then 1 else 0) <= budget
  {
    WithinRoomExactly(prompt, context, Target(budget, Overhead(prompt, context)), budget);
  }

  /** One character, over and over. */
  function Repeated(c: char, n: nat): (text: string)
    ensures |text| == n && forall i :: 0 <= i < n ==> text[i] == c
  {
    seq(n, _ => c)
  }

  /** The witness that the one token is lost: a context of 400 characters and one character of instructions, over a
      budget of 128 that leaves it all to the context, is fitted to 129. */
  lemma OneTokenOver()
    ensures var context := Repeated('x', 400);
            var prompt := context + "i";
            var target := Target(128, Overhead(prompt, context));
            && CountTokens(prompt) > 128 && Find(prompt, context) == Some(0)
            && target == 128 == 128 - Overhead(prompt, context)
            && CountTokens(Replace(prompt, context, TruncateTokens(Repeated('s', 384), target))) == 128 + 1
  {
    var context := Repeated('x', 400);
    assert (context + "i")[0..400] == context;
    FindsFirst(context + "i", context, 0);
    ReplaceLength(context + "i", context, Repeated('s', 384));
  }

  /** And over the floor: four characters of instructions leave the context less than the floor, and the fitted
      prompt counts the overhead, the floor and that one token. */
  lemma OneTokenOverTheFloor()
    ensures var context := Repeated('x', 400);
            var prompt := context + "iiii";
            var overhead := Overhead(prompt, context);
            var target := Target(128, overhead);
            && CountTokens(prompt) > 128 && Find(prompt, context) == Some(0)
            && 128 - overhead < MIN_CONTEXT_TOKENS == target
            && CountTokens(Replace(prompt, context, TruncateTokens(Repeated('s', 384), target)))
               == overhead + 1 + MIN_CONTEXT_TOKENS > 128
  {
    var context := Repeated('x', 400);
    assert (context + "iiii")[0..400] == context;
    FindsFirst(context + "iiii", context, 0);
    ReplaceLength(context + "iiii", context, Repeated('s', 384));
  }

  /** A splice leaves the prompt as it is, whatever summary comes back, exactly when the context is no longer in it. */
  lemma SpliceDoesNothingExactly(prompt: string, context: string, target: nat)
    requires context != "" && target > 0
    ensures (forall reply :: reply != "" ==> Replace(prompt, context, TruncateTokens(reply, target)) == prompt)
            <==> Find(prompt, context).None?
  {
    if Find(prompt, context).Some? {
      var reply := OfAnotherLength(context);
      ReplaceLength(prompt, context, reply);
      assert TruncateTokens(reply, target) == reply;
    }
  }

  /** A reply that cannot take the context's place unnoticed. */
  function OfAnotherLength(context: string): (reply: string)
    ensures 0 < |reply| <= 2 && |reply| != |context|
  {
    if |context| == 1 then "ss" else "s"
  }

  /** A re-fit that splices with a context the prompt no longer holds changes nothing, whatever was condensed. */
  lemma NothingToSplice(prompt: string, context: string, summary: string)
    requires forall i: nat :: !OccursAt(prompt, context, i)
    ensures Replace(prompt, context, summary) == prompt
  {
  }
}
