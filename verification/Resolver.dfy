/** The deferred-intent resolver (internal/resolver/deferred.go). */
module Resolver {
  import opened Wrappers
  import opened Text
  import opened Sorting
  import opened Registry

  // ----- The sliding window over a run -----

  datatype Event = Observe(capability: string) | Reset

  function LastOf<T>(s: seq<T>, n: nat): seq<T> {
    if |s| <= n then s else s[|s| - n..]
  }

  /** Blank observations are dropped. */
  function Observed(window: seq<string>, windowSize: nat, capability: string): seq<string> {
    var c := Normalize(capability);
    if c == "" then window else LastOf(window + [c], windowSize)
  }

  function Next(window: seq<string>, windowSize: nat, e: Event): seq<string> {
    match e
    case Observe(c) => Observed(window, windowSize, c)
    case Reset => []
  }

  /** The window after a run from a fresh resolver. */
  function WindowAfter(windowSize: nat, run: seq<Event>): seq<string> {
    if run == [] then [] else Next(WindowAfter(windowSize, run[..|run| - 1]), windowSize, run[|run| - 1])
  }

  /** The normalised observations accepted since the last reset. */
  function AcceptedSinceReset(run: seq<Event>): seq<string> {
    if run == [] then []
    else
      var before := AcceptedSinceReset(run[..|run| - 1]);
      match run[|run| - 1]
      case Observe(c) => if Normalize(c) == "" then before else before + [Normalize(c)]
      case Reset => []
  }

  /** The window is the last W accepted observations since the last reset. */
  lemma {:induction false} WindowIsSuffix(windowSize: nat, run: seq<Event>)
    ensures WindowAfter(windowSize, run) == LastOf(AcceptedSinceReset(run), windowSize)
  {
    if run == [] {
    } else {
      var init, e := run[..|run| - 1], run[|run| - 1];
      WindowIsSuffix(windowSize, init);
      if e.Observe? { LastOfStep(AcceptedSinceReset(init), windowSize, Normalize(e.capability)); }
    }
  }

  lemma LastOfStep<T>(s: seq<T>, n: nat, x: T)
    ensures LastOf(LastOf(s, n) + [x], n) == LastOf(s + [x], n)
  {
    if |s| > n {
      assert (s[|s| - n..] + [x])[1..] == (s + [x])[|s| - n + 1..];
    }
  }

  // ----- Narrowing -----

  predicate Narrowed(window: seq<string>, threshold: nat) { |window| >= threshold }

  /** Narrowing happens exactly when the window can hold enough observations and enough
      were accepted; a threshold above the window size is never reached. */
  lemma NarrowedExactly(windowSize: nat, threshold: nat, run: seq<Event>)
    ensures Narrowed(WindowAfter(windowSize, run), threshold) <==>
            windowSize >= threshold && |AcceptedSinceReset(run)| >= threshold
  {
    WindowIsSuffix(windowSize, run);
  }

  /** Once narrowed, only a reset brings the full surface back. */
  lemma {:induction false} StaysNarrowed(windowSize: nat, threshold: nat, run: seq<Event>, more: seq<Event>)
    requires Narrowed(WindowAfter(windowSize, run), threshold)
    requires Reset !in more
    ensures Narrowed(WindowAfter(windowSize, run + more), threshold)
  {
    if more == [] {
      assert run + more == run;
    } else {
      var n := |more| - 1;
      StaysNarrowed(windowSize, threshold, run, more[..n]);
      assert (run + more)[..|run + more| - 1] == run + more[..n];
      assert (run + more)[|run + more| - 1] == more[n];
      NarrowedExactly(windowSize, threshold, run + more[..n]);
      NarrowedExactly(windowSize, threshold, run + more);
    }
  }

  // ----- What resolving answers -----

  type Fallback = string -> Option<seq<string>>

  /** Hints always; then everything below the threshold, and from it on the window plus
      what the fallback makes of a stated intent. */
  function ResolvedSet(all: seq<string>, window: seq<string>, threshold: nat, fallback: Fallback, intent: string,
                       hints: seq<string>): set<string> {
    Wanted(hints) +
    if !Narrowed(window, threshold) then Elems(all)
    else Elems(window) + if intent != "" && fallback(intent).Some? then Elems(fallback(intent).value) else {}
  }

  /** Among the last n there is tag. */
  predicate Recent(accepted: seq<string>, n: nat, tag: string) {
    exists i :: 0 <= i < |accepted| && |accepted| - i <= n && accepted[i] == tag
  }

  predicate Hinted(hints: seq<string>, tag: string) { tag != "" && exists h :: h in hints && Normalize(h) == tag }

  predicate Meant(fallback: Fallback, intent: string, tag: string) {
    intent != "" && fallback(intent).Some? && tag in fallback(intent).value
  }

  /** Whether a tag belongs in the answer, given what was observed and accepted since the
      last reset: a hint always does; before narrowing so does every known tag, from then
      on those of the last W observations and what the intent means. */
  predicate Wants(all: seq<string>, windowSize: nat, threshold: nat, fallback: Fallback, accepted: seq<string>,
                  intent: string, hints: seq<string>, tag: string) {
    Hinted(hints, tag) ||
    if |accepted| < threshold || windowSize < threshold then tag in all
    else Recent(accepted, windowSize, tag) || Meant(fallback, intent, tag)
  }

  lemma RecentIsLast(accepted: seq<string>, n: nat, tag: string)
    ensures tag in LastOf(accepted, n) <==> Recent(accepted, n, tag)
  {
    var last := LastOf(accepted, n);
    var skipped := |accepted| - |last|;
    if tag in last {
      var k :| 0 <= k < |last| && last[k] == tag;
      assert accepted[skipped + k] == tag;
    }
    if i :| 0 <= i < |accepted| && |accepted| - i <= n && accepted[i] == tag { assert last[i - skipped] == tag; }
  }

  /** After any run, the answer holds exactly the tags that belong in it. */
  lemma AnsweredExactly(all: seq<string>, windowSize: nat, threshold: nat, fallback: Fallback, run: seq<Event>,
                        intent: string, hints: seq<string>, tag: string)
    ensures tag in ResolvedSet(all, WindowAfter(windowSize, run), threshold, fallback, intent, hints) <==>
            Wants(all, windowSize, threshold, fallback, AcceptedSinceReset(run), intent, hints, tag)
  {
    var window := WindowAfter(windowSize, run);
    WindowIsSuffix(windowSize, run);
    RecentIsLast(AcceptedSinceReset(run), windowSize, tag);
    assert tag in Elems(window) <==> tag in window;
    assert tag in Elems(all) <==> tag in all;
    assert tag in Wanted(hints) <==> Hinted(hints, tag);
  }

  /** The tags observed, normalised, the blank ones left out. */
  function Tags(events: seq<Event>): seq<string> {
    if events == [] then [] else Tags(events[..|events| - 1]) + TagOf(events[|events| - 1])
  }

  function TagOf(e: Event): seq<string> {
    if e.Reset? || Normalize(e.capability) == "" then [] else [Normalize(e.capability)]
  }

  lemma AcceptedStep(run: seq<Event>)
    requires run != []
    ensures AcceptedSinceReset(run) ==
            if run[|run| - 1].Reset? then [] else AcceptedSinceReset(run[..|run| - 1]) + TagOf(run[|run| - 1])
  {
  }

  lemma WithoutLast(before: seq<Event>, after: seq<Event>)
    requires after != []
    ensures (before + after)[..|before + after| - 1] == before + after[..|after| - 1]
    ensures (before + after)[|before + after| - 1] == after[|after| - 1]
  {
  }

  /** What was accepted since the last reset: what came before it plays no part, and of
      what came after it only blank tags are missing. */
  lemma {:induction false} AcceptedAre(before: seq<Event>, after: seq<Event>)
    requires before != [] && before[|before| - 1] == Reset && Reset !in after
    ensures AcceptedSinceReset(before + after) == Tags(after)
  {
    AcceptedStep(before + after);
    if after == [] {
      assert before + after == before;
    } else {
      WithoutLast(before, after);
      AcceptedAre(before, after[..|after| - 1]);
    }
  }

  class DeferredResolver {
    const allCapabilities: seq<string>
    const fallback: Fallback
    const windowSize: nat
    const narrowThreshold: nat
    var window: seq<string>
    /** What happened to the resolver so far. */
    ghost var history: seq<Event>

    ghost predicate Valid()
      reads this
    {
      windowSize >= 1 && narrowThreshold >= 1 && |window| <= windowSize && window == WindowAfter(windowSize, history)
    }

    /** Whether a tag belongs in the answer to a request made now. */
    ghost predicate WantsNow(intent: string, hints: seq<string>, tag: string)
      reads this
    {
      Wants(allCapabilities, windowSize, narrowThreshold, fallback, AcceptedSinceReset(history), intent, hints, tag)
    }

    /** Non-positive sizes fall back to a window of 10 and a threshold of 3. */
    constructor (all: seq<string>, fallback: Fallback, windowSize: int, narrowThreshold: int)
      ensures Valid() && history == [] && window == []
      ensures this.windowSize == if windowSize <= 0 then 10 else windowSize
      ensures this.narrowThreshold == if narrowThreshold <= 0 then 3 else narrowThreshold
      ensures Sorted(allCapabilities) && multiset(allCapabilities) == multiset(all)
      ensures this.fallback == fallback
    {
      var sorted := SortStrings(all);
      this.allCapabilities := sorted;
      this.fallback := fallback;
      this.windowSize := if windowSize <= 0 then 10 else windowSize;
      this.narrowThreshold := if narrowThreshold <= 0 then 3 else narrowThreshold;
      this.window := [];
      this.history := [];
    }

    method Observe(capability: string)
      requires Valid()
      modifies this
      ensures Valid() && window == Next(old(window), windowSize, Event.Observe(capability))
      ensures history == old(history) + [Event.Observe(capability)]
    {
      history := history + [Event.Observe(capability)];
      assert history[..|history| - 1] == old(history);
      var cap := Normalize(capability);
      if cap == "" {
        return;
      }
      var longer := window + [cap];
      window := longer;
      if |window| > windowSize {
        window := window[|window| - windowSize..];
      }
      assert window == LastOf(longer, windowSize);
    }

    method Reset()
      requires Valid()
      modifies this
      ensures Valid() && window == Next(old(window), windowSize, Event.Reset)
      ensures history == old(history) + [Event.Reset]
    {
      history := history + [Event.Reset];
      window := [];
    }

    /** None stands for the error that nothing was resolved. */
    method Resolve(intent: string, hints: seq<string>) returns (r: Option<seq<string>>)
      requires Valid()
      ensures var caps := ResolvedSet(allCapabilities, window, narrowThreshold, fallback, intent, hints);
        r == if caps == {} then None else Some(SortedSeq(caps))
      ensures Answers(r, intent, hints)
    {
      var caps := Collect(intent, hints);
      AnswerIsWanted(intent, hints, caps);
      if caps == {} {
        return None;
      }
      var out := SortSet(caps);
      return Some(out);
    }

    /** The set of tags before it is sorted. */
    method Collect(intent: string, hints: seq<string>) returns (caps: set<string>)
      ensures caps == ResolvedSet(allCapabilities, window, narrowThreshold, fallback, intent, hints)
    {
      caps := HintSet(hints);
      if |window| < narrowThreshold {
        caps := AddAll(caps, allCapabilities);
      } else {
        caps := AddAll(caps, window);
        if intent != "" {
          var resolved := fallback(intent);
          if resolved.Some? {
            caps := AddAll(caps, resolved.value);
          }
        }
      }
    }

    /** The answer lists exactly the tags that belong in it, each once and in order. */
    ghost predicate Answers(r: Option<seq<string>>, intent: string, hints: seq<string>)
      reads this
    {
      match r
      case None => forall tag :: !WantsNow(intent, hints, tag)
      case Some(tags) => tags != [] && StrictlySorted(tags) && forall tag :: tag in tags <==> WantsNow(intent, hints, tag)
    }

    lemma AnswerIsWanted(intent: string, hints: seq<string>, caps: set<string>)
      requires Valid() && caps == ResolvedSet(allCapabilities, window, narrowThreshold, fallback, intent, hints)
      ensures Answers(if caps == {} then None else Some(SortedSeq(caps)), intent, hints)
    {
      forall tag ensures tag in caps <==> WantsNow(intent, hints, tag) {
        AnsweredExactly(allCapabilities, windowSize, narrowThreshold, fallback, history, intent, hints, tag);
      }
      assert forall tag :: tag in SortedSeq(caps) <==> tag in Elems(SortedSeq(caps));
    }

    method HintSet(hints: seq<string>) returns (caps: set<string>)
      ensures caps == Wanted(hints)
    {
      caps := {};
      for i := 0 to |hints|
        invariant caps == Wanted(hints[..i])
      {
        WantedStep(hints, i);
        var h := Normalize(hints[i]);
        if h != "" { caps := caps + {h}; }
      }
      assert hints[..|hints|] == hints;
    }

    method AddAll(caps0: set<string>, more: seq<string>) returns (caps: set<string>)
      ensures caps == caps0 + Elems(more)
    {
      caps := caps0;
      for i := 0 to |more|
        invariant caps == caps0 + Elems(more[..i])
      {
        assert more[..i + 1] == more[..i] + [more[i]];
        ElemsAppend(more[..i], more[i]);
        caps := caps + {more[i]};
      }
      assert more[..|more|] == more;
    }
  }
}
