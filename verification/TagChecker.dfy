/** The tag-nesting pass of scripts/quality_check.py: a stack machine over the
    start-tag and end-tag events of an HTML parser, proved against the grammar of
    properly nested words. */
module TagChecker {

  datatype Event = Open(tag: string) | Close(tag: string)

  /** One entry of the error list: the closing tag met and what stood on the stack. */
  datatype NestingError = UnexpectedClose(tag: string, expected: string)

  const VOID_TAGS: set<string> :=
    {"area", "base", "br", "col", "embed", "hr", "img", "input",
     "link", "meta", "param", "source", "track", "wbr"}

  /** The fourteen elements that have no end tag. */
  lemma VoidElements(tag: string)
    ensures tag in VOID_TAGS <==>
            tag == "area" || tag == "base" || tag == "br" || tag == "col" || tag == "embed" || tag == "hr" || tag == "img"
            || tag == "input" || tag == "link" || tag == "meta" || tag == "param" || tag == "source" || tag == "track"
            || tag == "wbr"
  {
  }

  // ---------------------------------------------------------------------------
  // The grammar: a forest of matched tags. Forest is the derivation, Yield its word.

  datatype Forest = Empty | Node(tag: string, inside: Forest, after: Forest)

  function Yield(f: Forest): seq<Event> {
    match f
    case Empty => []
    case Node(t, inside, after) => [Open(t)] + Yield(inside) + [Close(t)] + Yield(after)
  }

  ghost predicate Balanced(word: seq<Event>) {
    exists f :: Yield(f) == word
  }

  /** The events the checker looks at: void tags neither open nor close anything. */
  function NonVoid(word: seq<Event>): seq<Event> {
    if word == [] then []
    else (if word[0].tag in VOID_TAGS then [] else [word[0]]) + NonVoid(word[1..])
  }

  /** The closing tags, innermost first, for a stack whose top is its last element. */
  function Closers(stack: seq<string>): seq<Event> {
    if stack == [] then []
    else [Close(stack[|stack| - 1])] + Closers(stack[..|stack| - 1])
  }

  // ---------------------------------------------------------------------------
  // The machine

  datatype Machine = Machine(stack: seq<string>, errs: seq<NestingError>)

  function Step(m: Machine, e: Event): Machine {
    if e.tag in VOID_TAGS then m
    else match e
      case Open(t) => m.(stack := m.stack + [t])
      case Close(t) =>
        if m.stack != [] && m.stack[|m.stack| - 1] == t then m.(stack := m.stack[..|m.stack| - 1])
        else
          var expected := if m.stack != [] then m.stack[|m.stack| - 1] else "empty";
          m.(errs := m.errs + [UnexpectedClose(t, expected)])
  }

  function Run(m: Machine, word: seq<Event>): Machine
    decreases |word|
  {
    if word == [] then m else Run(Step(m, word[0]), word[1..])
  }

  const START := Machine([], [])

  class Validator {
    var stack: seq<string>
    var errs: seq<NestingError>

    constructor ()
      ensures stack == [] && errs == []
    {
      stack, errs := [], [];
    }

    ghost function State(): Machine
      reads this
    {
      Machine(stack, errs)
    }

    method HandleStartTag(tag: string)
      modifies this
      ensures State() == Step(old(State()), Open(tag))
      ensures errs == old(errs) && stack == if tag in VOID_TAGS then old(stack) else old(stack) + [tag]
    {
      if tag !in VOID_TAGS {
        stack := stack + [tag];
      }
    }

    method HandleEndTag(tag: string)
      modifies this
      ensures State() == Step(old(State()), Close(tag))
      ensures tag in VOID_TAGS ==> stack == old(stack) && errs == old(errs)
      ensures tag !in VOID_TAGS && old(stack) != [] && old(stack)[|old(stack)| - 1] == tag ==>
        stack + [tag] == old(stack) && errs == old(errs)
      ensures tag !in VOID_TAGS && old(stack) != [] && old(stack)[|old(stack)| - 1] != tag ==>
        stack == old(stack) && errs == old(errs) + [UnexpectedClose(tag, old(stack)[|old(stack)| - 1])]
      ensures tag !in VOID_TAGS && old(stack) == [] ==>
        stack == [] && errs == old(errs) + [UnexpectedClose(tag, "empty")]
    {
      if tag in VOID_TAGS {
        return;
      }
      if stack != [] && stack[|stack| - 1] == tag {
        stack := stack[..|stack| - 1];
      } else {
        var expected := if stack != [] then stack[|stack| - 1] else "empty";
        errs := errs + [UnexpectedClose(tag, expected)];
      }
    }

    /** Feeds a whole document and decides whether it is properly nested. */
    method Feed(word: seq<Event>)
      modifies this
      ensures State() == Run(old(State()), word)
    {
      var i := 0;
      while i < |word|
        invariant 0 <= i <= |word|
        invariant Run(State(), word[i..]) == Run(old(State()), word)
      {
        match word[i] {
          case Open(t) => HandleStartTag(t);
          case Close(t) => HandleEndTag(t);
        }
        i := i + 1;
      }
    }
  }

  /** The nesting section of the script: up to ten stack errors, then the tags left open. */
  datatype Report = Report(nesting: seq<NestingError>, unclosed: seq<string>)

  /** Reports the first ten refused closers and the tags that stay open. */
  method CheckNesting(word: seq<Event>) returns (report: Report)
    ensures |report.nesting| == if |Refused(word)| < 10 then |Refused(word)| else 10
    ensures BlamesEach(word, Refused(word)[..|report.nesting|], report.nesting)
    ensures OpenTags(Kept(word), report.unclosed)
    ensures (report == Report([], [])) <==> Balanced(NonVoid(word))
  {
    hide Blames, OpenTags, Balanced;
    var v := new Validator();
    v.Feed(word);
    report := Report(if |v.errs| < 10 then v.errs else v.errs[..10], v.stack);
    CleanIffBalanced(word);
    RefusedClosersOnly(word);
    StackIsWhatStaysOpen(word);
  }

  // ---------------------------------------------------------------------------
  // Lemmas about the machine

  lemma RunConcat(m: Machine, u: seq<Event>, w: seq<Event>)
    ensures Run(m, u + w) == Run(Run(m, u), w)
    decreases u
  {
    if u == [] {
      assert u + w == w;
    } else {
      assert (u + w)[0] == u[0] && (u + w)[1..] == u[1..] + w;
      RunConcat(Step(m, u[0]), u[1..], w);
    }
  }

  lemma ErrorsOnlyGrow(m: Machine, word: seq<Event>)
    ensures m.errs <= Run(m, word).errs
    decreases |word|
  {
    if word != [] {
      ErrorsOnlyGrow(Step(m, word[0]), word[1..]);
    }
  }

  lemma RunIgnoresVoid(m: Machine, word: seq<Event>)
    ensures Run(m, word) == Run(m, NonVoid(word))
    decreases |word|
  {
    if word != [] {
      RunIgnoresVoid(Step(m, word[0]), word[1..]);
      if word[0].tag in VOID_TAGS {
        assert NonVoid(word) == NonVoid(word[1..]);
      } else {
        assert NonVoid(word)[0] == word[0] && NonVoid(word)[1..] == NonVoid(word[1..]);
      }
    }
  }

  ghost predicate NoVoidTags(word: seq<Event>) {
    forall i :: 0 <= i < |word| ==> word[i].tag !in VOID_TAGS
  }

  lemma NonVoidHasNoVoidTags(word: seq<Event>)
    ensures NoVoidTags(NonVoid(word))
  {
  }

  // ---------------------------------------------------------------------------
  // Grammar to machine: a matched word leaves any machine as it found it

  predicate NoVoidNodes(f: Forest) {
    f.Node? ==> f.tag !in VOID_TAGS && NoVoidNodes(f.inside) && NoVoidNodes(f.after)
  }

  lemma {:induction false} NoVoidWordNoVoidNodes(f: Forest)
    requires NoVoidTags(Yield(f))
    ensures NoVoidNodes(f)
  {
    if f.Node? {
      var word, inside, after := Yield(f), Yield(f.inside), Yield(f.after);
      assert word[0] == Open(f.tag);
      assert word[1..|inside| + 1] == inside;
      assert word[|inside| + 2..] == after;
      NoVoidWordNoVoidNodes(f.inside);
      NoVoidWordNoVoidNodes(f.after);
    }
  }

  lemma {:induction false} ForestIsNeutral(f: Forest, m: Machine)
    requires NoVoidNodes(f)
    ensures Run(m, Yield(f)) == m
    decreases f
  {
    if f.Node? {
      var pushed := m.(stack := m.stack + [f.tag]);
      var tail := [Close(f.tag)] + Yield(f.after);
      assert Yield(f) == [Open(f.tag)] + (Yield(f.inside) + tail);
      assert pushed.stack[..|m.stack|] == m.stack;
      ForestIsNeutral(f.inside, pushed);
      ForestIsNeutral(f.after, m);
      RunConcat(pushed, Yield(f.inside), tail);
    }
  }

  // ---------------------------------------------------------------------------
  // Machine to grammar: parse a clean run from any stack

  /** The word a clean run from `stack` down to the empty stack must have read: a matched
      word, the closer of the top, a matched word, the closer below, and so on. */
  function Unwinding(stack: seq<string>, forests: seq<Forest>): seq<Event>
    requires |forests| == |stack| + 1
    decreases |stack|, 1
  {
    Yield(forests[|stack|]) + Lower(stack, forests[..|stack|])
  }

  function Lower(stack: seq<string>, forests: seq<Forest>): seq<Event>
    requires |forests| == |stack|
    decreases |stack|, 0
  {
    if stack == [] then []
    else [Close(stack[|stack| - 1])] + Unwinding(stack[..|stack| - 1], forests)
  }

  lemma Regroup(a: seq<Event>, b: seq<Event>, c: seq<Event>, d: seq<Event>, e: seq<Event>)
    ensures a + b + c + d + e == a + (b + (c + (d + e)))
  {
  }

  lemma UnwindOpen(stack: seq<string>, t: string, below: seq<Forest>)
    requires |below| == |stack| + 2
    ensures var n := |stack|;
            Unwinding(stack, below[..n] + [Node(t, below[n + 1], below[n])])
            == [Open(t)] + Unwinding(stack + [t], below)
  {
    hide Yield;
    var n := |stack|;
    var inside, after, lower := Yield(below[n + 1]), Yield(below[n]), Lower(stack, below[..n]);
    UnwindTop(stack, below[..n], Node(t, below[n + 1], below[n]));
    UnwindTop(stack, below[..n], below[n]);
    UnwindTop(stack + [t], below[..n + 1], below[n + 1]);
    NodeYield(t, below[n + 1], below[n]);
    assert below[..n] + [below[n]] == below[..n + 1] && below[..n + 1] + [below[n + 1]] == below;
    assert (stack + [t])[..n] == stack;
    assert Lower(stack + [t], below[..n + 1]) == [Close(t)] + (after + lower);
    Regroup([Open(t)], inside, [Close(t)], after, lower);
  }

  lemma NodeYield(t: string, inside: Forest, after: Forest)
    ensures Yield(Node(t, inside, after)) == [Open(t)] + Yield(inside) + [Close(t)] + Yield(after)
  {
  }

  lemma UnwindTop(stack: seq<string>, lower: seq<Forest>, top: Forest)
    requires |lower| == |stack|
    ensures Unwinding(stack, lower + [top]) == Yield(top) + Lower(stack, lower)
  {
    assert (lower + [top])[..|stack|] == lower;
  }

  lemma UnwindClose(stack: seq<string>, below: seq<Forest>)
    requires 0 < |below| == |stack|
    ensures Unwinding(stack, below + [Empty])
         == [Close(stack[|stack| - 1])] + Unwinding(stack[..|stack| - 1], below)
  {
    UnwindTop(stack, below, Empty);
  }

  lemma {:induction false} ParseCleanRun(stack: seq<string>, word: seq<Event>) returns (forests: seq<Forest>)
    requires NoVoidTags(word)
    requires Run(Machine(stack, []), word) == START
    ensures |forests| == |stack| + 1
    ensures Unwinding(stack, forests) == word
    decreases |word|
  {
    var n := |stack|;
    if word == [] {
      assert Unwinding([], [Empty]) == [];
      return [Empty];
    }
    var next := Step(Machine(stack, []), word[0]);
    ErrorsOnlyGrow(next, word[1..]);
    var below := ParseCleanRun(next.stack, word[1..]);
    assert word == [word[0]] + word[1..];
    match word[0]
    case Open(t) =>
      UnwindOpen(stack, t, below);
      forests := below[..n] + [Node(t, below[n + 1], below[n])];
    case Close(t) =>
      UnwindClose(stack, below);
      forests := below + [Empty];
  }

  /** The checker reports nothing and ends with an empty stack exactly on the words of the grammar. */
  lemma {:induction false} CleanIffBalanced(word: seq<Event>)
    ensures Run(START, word) == START <==> Balanced(NonVoid(word))
  {
    RunIgnoresVoid(START, word);
    var w := NonVoid(word);
    NonVoidHasNoVoidTags(word);
    if Run(START, w) == START {
      var forests := ParseCleanRun([], w);
      assert Yield(forests[0]) == Unwinding([], forests) == w;
    }
    if Balanced(w) {
      var f :| Yield(f) == w;
      NoVoidWordNoVoidNodes(f);
      ForestIsNeutral(f, START);
    }
  }

  // ---------------------------------------------------------------------------
  // What the stack means when there is no error

  lemma {:induction false} ClosersEmptyTheStack(stack: seq<string>)
    requires forall i :: 0 <= i < |stack| ==> stack[i] !in VOID_TAGS
    ensures Run(Machine(stack, []), Closers(stack)) == START
    ensures NoVoidTags(Closers(stack))
    decreases |stack|
  {
    if stack != [] {
      var below := stack[..|stack| - 1];
      ClosersEmptyTheStack(below);
      assert Closers(stack)[1..] == Closers(below);
    }
  }

  lemma {:induction false} OnlyTheClosersEmptyTheStack(stack: seq<string>, closers: seq<Event>)
    requires NoVoidTags(closers)
    requires forall i :: 0 <= i < |closers| ==> closers[i].Close?
    requires Run(Machine(stack, []), closers) == START
    ensures closers == Closers(stack)
    decreases |closers|
  {
    if closers != [] {
      var next := Step(Machine(stack, []), closers[0]);
      ErrorsOnlyGrow(next, closers[1..]);
      OnlyTheClosersEmptyTheStack(next.stack, closers[1..]);
    }
  }

  lemma StackHasNoVoidTags(m: Machine, word: seq<Event>)
    requires forall i :: 0 <= i < |m.stack| ==> m.stack[i] !in VOID_TAGS
    ensures forall i :: 0 <= i < |Run(m, word).stack| ==> Run(m, word).stack[i] !in VOID_TAGS
    decreases |word|
  {
    if word != [] {
      StackHasNoVoidTags(Step(m, word[0]), word[1..]);
    }
  }

  /** With no error, the stack holds exactly the closers still missing: they complete the
      input to a word of the grammar, and no other list of closing tags does. */
  lemma {:induction false} StackIsTheMissingClosers(word: seq<Event>, closers: seq<Event>)
    requires Run(START, word).errs == []
    requires NoVoidTags(closers) && forall i :: 0 <= i < |closers| ==> closers[i].Close?
    ensures Balanced(NonVoid(word) + closers) <==> closers == Closers(Run(START, word).stack)
  {
    var w, stack := NonVoid(word), Run(START, word).stack;
    RunIgnoresVoid(START, word);
    NonVoidHasNoVoidTags(word);
    StackHasNoVoidTags(START, word);
    RunConcat(START, w, closers);
    NoVoidIsFixed(w + closers);
    CleanIffBalanced(w + closers);
    if closers == Closers(stack) {
      ClosersEmptyTheStack(stack);
    }
    if Balanced(w + closers) {
      OnlyTheClosersEmptyTheStack(stack, closers);
    }
  }

  lemma NoVoidIsFixed(word: seq<Event>)
    requires NoVoidTags(word)
    ensures NonVoid(word) == word
  {
    if word != [] {
      NoVoidIsFixed(word[1..]);
      assert word == [word[0]] + word[1..];
    }
  }

  /** An error is reported exactly when no continuation at all makes the input balanced. */
  lemma {:induction false} NoErrorIffPrefixOfBalanced(word: seq<Event>)
    ensures Run(START, word).errs == []
       <==> exists rest :: NoVoidTags(rest) && Balanced(NonVoid(word) + rest)
  {
    var w, m := NonVoid(word), Run(START, word);
    RunIgnoresVoid(START, word);
    NonVoidHasNoVoidTags(word);
    if m.errs == [] {
      StackHasNoVoidTags(START, word);
      ClosersEmptyTheStack(m.stack);
      ClosersClose(m.stack);
      StackIsTheMissingClosers(word, Closers(m.stack));
    }
    if exists rest :: NoVoidTags(rest) && Balanced(w + rest) {
      var rest :| NoVoidTags(rest) && Balanced(w + rest);
      NoVoidIsFixed(w + rest);
      CleanIffBalanced(w + rest);
      RunConcat(START, w, rest);
      ErrorsOnlyGrow(m, rest);
    }
  }

  lemma ClosersClose(stack: seq<string>)
    ensures forall i :: 0 <= i < |Closers(stack)| ==> Closers(stack)[i].Close?
  {
  }

  // ---------------------------------------------------------------------------
  // What the errors and the stack mean, error or not, in terms of the grammar alone

  /** Some continuation makes these tags a word of the grammar. */
  ghost predicate Completable(word: seq<Event>) {
    exists rest :: NoVoidTags(rest) && Balanced(word + rest)
  }

  /** The document with its void tags and its refused closers left out: a closer is refused when,
      after what was kept before it, nothing could make the document balanced any more. */
  ghost function Kept(word: seq<Event>): seq<Event>
    decreases |word|
  {
    if word == [] then []
    else
      var before, last := Kept(word[..|word| - 1]), word[|word| - 1];
      if last.tag in VOID_TAGS || (last.Close? && !Completable(before + [last])) then before
      else before + [last]
  }

  /** The positions of the refused closers, in document order. */
  ghost function Refused(word: seq<Event>): seq<nat>
    decreases |word|
  {
    if word == [] then []
    else
      var before, last := Kept(word[..|word| - 1]), word[|word| - 1];
      Refused(word[..|word| - 1])
      + if last.Close? && last.tag !in VOID_TAGS && !Completable(before + [last]) then [|word| - 1] else []
  }

  /** These tags are open, the innermost last: closing them, and nothing else, balances the word. */
  ghost predicate OpenTags(word: seq<Event>, open: seq<string>) {
    NoVoidTags(Closers(open)) && Balanced(word + Closers(open))
  }

  /** The error names the closer at position i and the tag open before it. */
  ghost predicate Blames(word: seq<Event>, i: nat, error: NestingError)
    requires i < |word|
  {
    error.tag == word[i].tag
    && exists open :: OpenTags(Kept(word[..i]), open)
         && error.expected == if open == [] then "empty" else open[|open| - 1]
  }

  /** The errors are the refused closers among positions, one each and in order. */
  ghost predicate BlamesEach(word: seq<Event>, positions: seq<nat>, errs: seq<NestingError>) {
    |errs| == |positions|
    && forall k :: 0 <= k < |errs| ==> positions[k] < |word| && Blames(word, positions[k], errs[k])
  }

  /** From a clean state, a closer keeps the word completable exactly when it closes the top. */
  lemma {:induction false} CloserFits(kept: seq<Event>, stack: seq<string>, t: string)
    requires NoVoidTags(kept) && t !in VOID_TAGS && Run(START, kept) == Machine(stack, [])
    ensures Completable(kept + [Close(t)]) <==> stack != [] && stack[|stack| - 1] == t
  {
    var word := kept + [Close(t)];
    NoVoidIsFixed(word);
    NoErrorIffPrefixOfBalanced(word);
    RunConcat(START, kept, [Close(t)]);
    assert Run(Machine(stack, []), [Close(t)]) == Step(Machine(stack, []), Close(t));
  }

  lemma {:induction false} CleanStackIsOpen(kept: seq<Event>, stack: seq<string>)
    requires NoVoidTags(kept) && Run(START, kept) == Machine(stack, [])
    ensures OpenTags(kept, stack)
  {
    NoVoidIsFixed(kept);
    StackHasNoVoidTags(START, kept);
    ClosersEmptyTheStack(stack);
    ClosersClose(stack);
    StackIsTheMissingClosers(kept, Closers(stack));
  }

  lemma RunLast(word: seq<Event>)
    requires word != []
    ensures Run(START, word) == Step(Run(START, word[..|word| - 1]), word[|word| - 1])
  {
    var init, last := word[..|word| - 1], word[|word| - 1];
    assert word == init + [last];
    RunConcat(START, init, [last]);
    assert Run(Run(START, init), [last]) == Step(Run(START, init), last);
  }

  lemma BlamesEachLonger(word: seq<Event>, positions: seq<nat>, errs: seq<NestingError>)
    requires word != [] && BlamesEach(word[..|word| - 1], positions, errs)
    ensures BlamesEach(word, positions, errs)
  {
    var init := word[..|word| - 1];
    forall k | 0 <= k < |errs| ensures positions[k] < |word| && Blames(word, positions[k], errs[k]) {
      assert init[..positions[k]] == word[..positions[k]];
    }
  }

  lemma BlamesLast(word: seq<Event>, positions: seq<nat>, errs: seq<NestingError>, error: NestingError)
    requires word != [] && BlamesEach(word, positions, errs) && Blames(word, |word| - 1, error)
    ensures BlamesEach(word, positions + [|word| - 1], errs + [error])
  {
  }

  function TopOf(stack: seq<string>): string {
    if stack == [] then "empty" else stack[|stack| - 1]
  }

  /** One more tag after a clean kept word, with any errors behind it. */
  lemma {:induction false} OneMoreTag(kept: seq<Event>, m: Machine, last: Event)
    requires NoVoidTags(kept) && Run(START, kept) == Machine(m.stack, []) && last.tag !in VOID_TAGS
    ensures last.Close? && !Completable(kept + [last]) ==>
              Step(m, last) == Machine(m.stack, m.errs + [UnexpectedClose(last.tag, TopOf(m.stack))])
    ensures last.Open? || Completable(kept + [last]) ==>
              && Step(m, last).errs == m.errs && NoVoidTags(kept + [last])
              && Run(START, kept + [last]) == Machine(Step(m, last).stack, [])
  {
    hide Completable;
    RunConcat(START, kept, [last]);
    assert Run(Machine(m.stack, []), [last]) == Step(Machine(m.stack, []), last);
    if last.Close? {
      CloserFits(kept, m.stack, last.tag);
    }
  }

  /** On every document: leaving its refused closers out gives a clean run to the same stack, and
      the errors are exactly the refused closers, in order, each with the tag then open. */
  lemma {:induction false} RefusedClosersOnly(word: seq<Event>)
    ensures NoVoidTags(Kept(word))
    ensures Run(START, Kept(word)) == Machine(Run(START, word).stack, [])
    ensures BlamesEach(word, Refused(word), Run(START, word).errs)
    decreases |word|
  {
    hide Completable, Blames, BlamesEach, OpenTags, NoVoidTags, Run, Step;
    if word == [] {
      NothingToBlame();
    } else {
      var init, last := word[..|word| - 1], word[|word| - 1];
      var kept, m := Kept(init), Run(START, init);
      RefusedClosersOnly(init);
      RunLast(word);
      BlamesEachLonger(word, Refused(init), m.errs);
      assert Refused(init) + [] == Refused(init);
      if last.tag in VOID_TAGS {
        VoidStep(m, last);
      } else {
        OneMoreTag(kept, m, last);
        if last.Close? && !Completable(kept + [last]) {
          CleanStackIsOpen(kept, m.stack);
          BlamedBy(word, m.stack, UnexpectedClose(last.tag, TopOf(m.stack)));
          BlamesLast(word, Refused(init), m.errs, UnexpectedClose(last.tag, TopOf(m.stack)));
        }
      }
    }
  }

  lemma VoidStep(m: Machine, e: Event)
    requires e.tag in VOID_TAGS
    ensures Step(m, e) == m
  {
  }

  lemma NothingToBlame()
    ensures BlamesEach([], [], []) && NoVoidTags([]) && Run(START, []) == START
  {
  }

  lemma BlamedBy(word: seq<Event>, open: seq<string>, error: NestingError)
    requires word != [] && OpenTags(Kept(word[..|word| - 1]), open) && error.tag == word[|word| - 1].tag
    requires error.expected == if open == [] then "empty" else open[|open| - 1]
    ensures Blames(word, |word| - 1, error)
  {
  }

  /** Only one list of open tags balances a word without errors. */
  lemma {:induction false} OpenTagsUnique(word: seq<Event>, a: seq<string>, b: seq<string>)
    requires NoVoidTags(word)
    requires OpenTags(word, a) && OpenTags(word, b)
    ensures a == b
  {
    NoVoidIsFixed(word);
    NoErrorIffPrefixOfBalanced(word);
    ClosersClose(a);
    ClosersClose(b);
    StackIsTheMissingClosers(word, Closers(a));
    StackIsTheMissingClosers(word, Closers(b));
    ClosersInjective(a, b);
  }

  lemma {:induction false} ClosersInjective(a: seq<string>, b: seq<string>)
    requires Closers(a) == Closers(b)
    ensures a == b
    decreases |a|
  {
    if a != [] {
      assert Closers(a)[1..] == Closers(a[..|a| - 1]) && b != [];
      assert Closers(b)[1..] == Closers(b[..|b| - 1]);
      assert Closers(a)[0] == Closers(b)[0];
      ClosersInjective(a[..|a| - 1], b[..|b| - 1]);
      assert a == a[..|a| - 1] + [a[|a| - 1]] && b == b[..|b| - 1] + [b[|b| - 1]];
    }
  }

  /** The stack at the end is that of the document without its refused closers: exactly the tags
      whose closing would balance it. */
  lemma {:induction false} StackIsWhatStaysOpen(word: seq<Event>)
    ensures Run(START, word).stack == Run(START, Kept(word)).stack
    ensures OpenTags(Kept(word), Run(START, word).stack)
  {
    RefusedClosersOnly(word);
    CleanStackIsOpen(Kept(word), Run(START, word).stack);
  }
}
