/**
 * The navigation history of the help browser (help/help_browser.cpp, pushHistory, back, forward and
 * clearHistory). Entries are document ids; a document with an empty id leaves no entry.
 */
module HelpHistory {
  /** The tops of the stacks are their last elements. */
  datatype State = State(back: seq<string>, current: string, forward: seq<string>)

  // ---------------------------------------------------------------------------
  // Steps
  // ---------------------------------------------------------------------------

  function Page(id: string): seq<string> {
    if id == "" then [] else [id]
  }

  function Visited(h: State, id: string): State {
    State(if h.current == id then h.back else h.back + Page(h.current), id, [])
  }

  function MovedBack(h: State): State {
    if h.back == [] then h
    else
      var last := |h.back| - 1;
      State(h.back[..last], h.back[last], h.forward + Page(h.current))
  }

  function MovedForward(h: State): State {
    if h.forward == [] then h
    else
      var last := |h.forward| - 1;
      State(h.back + Page(h.current), h.forward[last], h.forward[..last])
  }

  datatype Step = Visit(id: string) | Back | Forward | Clear

  function Stepped(h: State, step: Step): State {
    match step
    case Visit(id) => Visited(h, id)
    case Back => MovedBack(h)
    case Forward => MovedForward(h)
    case Clear => State([], h.current, [])
  }

  function Run(h: State, steps: seq<Step>): State {
    if steps == [] then h else Stepped(Run(h, steps[..|steps| - 1]), steps[|steps| - 1])
  }

  // ---------------------------------------------------------------------------
  // The timeline
  // ---------------------------------------------------------------------------

  function Reversed(s: seq<string>): (r: seq<string>)
    ensures |r| == |s| && forall i :: 0 <= i < |s| ==> r[i] == s[|s| - 1 - i]
  {
    if s == [] then [] else [s[|s| - 1]] + Reversed(s[..|s| - 1])
  }

  /** All pages, oldest first: those before, the current one and those ahead. */
  function Timeline(h: State): seq<string> {
    h.back + Page(h.current) + Reversed(h.forward)
  }

  /** Both stacks have only pages with an id. */
  predicate Named(h: State) {
    (forall i :: 0 <= i < |h.back| ==> h.back[i] != "") && (forall i :: 0 <= i < |h.forward| ==> h.forward[i] != "")
  }

  /** In every run, whatever ids are visited, the stacks have only pages with an id. */
  lemma {:induction false} RunIsNamed(steps: seq<Step>)
    ensures Named(Run(State([], "", []), steps))
  {
    if steps != [] { RunIsNamed(steps[..|steps| - 1]); }
  }

  lemma BackKeepsTimeline(h: State)
    requires Named(h)
    ensures Timeline(MovedBack(h)) == Timeline(h)
  {
    if h.back != [] {
      hide Reversed;
      var last := |h.back| - 1;
      assert h.back == h.back[..last] + [h.back[last]];
      ReversedPage(h.forward, h.current);
    }
  }

  lemma ReversedPage(s: seq<string>, id: string)
    ensures Reversed(s + Page(id)) == Page(id) + Reversed(s)
  {
    if id != "" {
      assert (s + [id])[..|s|] == s;
    } else {
      assert s + [] == s;
    }
  }

  lemma ForwardKeepsTimeline(h: State)
    requires Named(h)
    ensures Timeline(MovedForward(h)) == Timeline(h)
  {
    if h.forward != [] {
      var last := |h.forward| - 1;
      assert Reversed(h.forward) == [h.forward[last]] + Reversed(h.forward[..last]);
    }
  }

  /** Going forward undoes going back exactly if the page that was left has an id. */
  lemma ForwardUndoesBackIff(h: State)
    requires Named(h) && h.back != []
    ensures MovedForward(MovedBack(h)) == h <==> h.current != ""
  {
    var last := |h.back| - 1;
    assert h.back == h.back[..last] + [h.back[last]];
    if h.current != "" {
      assert (h.forward + [h.current])[..|h.forward|] == h.forward;
    } else {
      assert h.forward + [] == h.forward;
    }
  }

  lemma BackUndoesForwardIff(h: State)
    requires Named(h) && h.forward != []
    ensures MovedBack(MovedForward(h)) == h <==> h.current != ""
  {
    var last := |h.forward| - 1;
    assert h.forward == h.forward[..last] + [h.forward[last]];
    if h.current != "" {
      assert (h.back + [h.current])[..|h.back|] == h.back;
    } else {
      assert h.back + [] == h.back;
    }
  }

  /** A visit forgets the pages ahead and nothing else. */
  lemma VisitTruncates(h: State, id: string)
    ensures Timeline(Visited(h, id)) == (if h.current == id then h.back else h.back + Page(h.current)) + Page(id)
    ensures h.current != id ==> Timeline(Visited(h, id)) == Timeline(h)[..|h.back| + |Page(h.current)|] + Page(id)
    ensures Visited(h, id).current == id && Visited(h, id).forward == []
  {
    assert Timeline(h)[..|h.back| + |Page(h.current)|] == h.back + Page(h.current);
  }

  /** Clearing forgets all pages but the current one, and then neither move leads anywhere. */
  lemma ClearKeepsPage(h: State)
    ensures var r := Stepped(h, Clear);
            && r.current == h.current && Timeline(r) == Page(h.current)
            && Stepped(r, Back) == Stepped(r, Forward) == r
  {
  }

  // ---------------------------------------------------------------------------
  // Runs of back and forward
  // ---------------------------------------------------------------------------

  predicate MovesOnly(steps: seq<Step>) {
    forall i :: 0 <= i < |steps| ==> steps[i].Back? || steps[i].Forward?
  }

  /** A place in the timeline: on a page, or on a page without an id, between two pages or at an end. */
  datatype Place = On(at: nat) | Before(at: nat)

  function PlaceOf(h: State): Place {
    if h.current == "" then Before(|h.back|) else On(|h.back|)
  }

  /** One step back or forward, but not beyond either end of the timeline. */
  function Moved(p: Place, length: nat, step: Step): Place {
    if step.Back? then
      (if p.at == 0 then p else On(p.at - 1))
    else
      match p
      case On(at) => if at + 1 < length then On(at + 1) else p
      case Before(at) => if at < length then On(at) else p
  }

  /** Where a run of moves ends. */
  function PlaceAfter(p: Place, length: nat, steps: seq<Step>): Place {
    if steps == [] then p else Moved(PlaceAfter(p, length, steps[..|steps| - 1]), length, steps[|steps| - 1])
  }

  /** The timeline and the place in it decide the state. */
  lemma PlaceDecides(h: State, k: State)
    requires Timeline(h) == Timeline(k) && PlaceOf(h) == PlaceOf(k)
    ensures h == k
  {
    var n := |h.back|;
    var m := n + |Page(h.current)|;
    assert Timeline(h)[..n] == h.back && Timeline(k)[..n] == k.back;
    if h.current != "" {
      assert Timeline(h)[n] == h.current && Timeline(k)[n] == k.current;
    }
    assert Timeline(h)[m..] == Reversed(h.forward) && Timeline(k)[m..] == Reversed(k.forward);
    ReversedSame(h.forward, k.forward);
  }

  lemma ReversedSame(s: seq<string>, t: seq<string>)
    requires Reversed(s) == Reversed(t)
    ensures s == t
  {
    forall i | 0 <= i < |s| ensures s[i] == t[i] {
      assert s[i] == Reversed(s)[|s| - 1 - i] && t[i] == Reversed(t)[|t| - 1 - i];
    }
  }

  lemma TimelineLength(h: State)
    ensures |Timeline(h)| == |h.back| + |Page(h.current)| + |h.forward|
  {
  }

  /** One move leaves the timeline as it is and only changes the place in it. */
  lemma MoveKeepsTimeline(h: State, step: Step)
    requires Named(h) && (step.Back? || step.Forward?)
    ensures var r := Stepped(h, step);
            && Named(r) && Timeline(r) == Timeline(h)
            && PlaceOf(r) == Moved(PlaceOf(h), |Timeline(h)|, step)
  {
    hide Reversed, Timeline;
    TimelineLength(h);
    if step.Back? {
      BackKeepsTimeline(h);
    } else {
      ForwardKeepsTimeline(h);
    }
  }

  /** So does any run of moves. */
  lemma {:induction false} MovesKeepTimeline(h: State, steps: seq<Step>)
    requires Named(h) && MovesOnly(steps)
    ensures var r := Run(h, steps);
            && Named(r) && Timeline(r) == Timeline(h)
            && PlaceOf(r) == PlaceAfter(PlaceOf(h), |Timeline(h)|, steps)
  {
    hide Timeline, Named, Stepped, Moved, PlaceOf;
    if steps != [] {
      var front := steps[..|steps| - 1];
      MovesKeepTimeline(h, front);
      MoveKeepsTimeline(Run(h, front), steps[|steps| - 1]);
    }
  }

  /** Two runs of moves end in the same state exactly if they end at the same place. */
  lemma SamePlaceSameState(h: State, a: seq<Step>, b: seq<Step>)
    requires Named(h) && MovesOnly(a) && MovesOnly(b)
    ensures Run(h, a) == Run(h, b) <==>
            PlaceAfter(PlaceOf(h), |Timeline(h)|, a) == PlaceAfter(PlaceOf(h), |Timeline(h)|, b)
  {
    hide Timeline, Run, PlaceAfter;
    MovesKeepTimeline(h, a);
    MovesKeepTimeline(h, b);
    if PlaceOf(Run(h, a)) == PlaceOf(Run(h, b)) {
      PlaceDecides(Run(h, a), Run(h, b));
    }
  }

  // ---------------------------------------------------------------------------
  // The browser
  // ---------------------------------------------------------------------------

  class Browser {
    var backStack: seq<string>
    var forwardStack: seq<string>
    var currentDocumentId: string

    ghost function History(): State
      reads this
    {
      State(backStack, currentDocumentId, forwardStack)
    }

    constructor ()
      ensures History() == State([], "", [])
    {
      backStack, forwardStack, currentDocumentId := [], [], "";
    }

    method PushHistory(documentId: string)
      modifies this
      ensures History() == Visited(old(History()), documentId)
    {
      if currentDocumentId != "" && currentDocumentId != documentId {
        backStack := backStack + [currentDocumentId];
      }
      currentDocumentId := documentId;
      forwardStack := [];
    }

    method GoBack()
      modifies this
      ensures History() == MovedBack(old(History()))
    {
      if backStack == [] { return; }
      if currentDocumentId != "" {
        forwardStack := forwardStack + [currentDocumentId];
      }
      currentDocumentId := backStack[|backStack| - 1];
      backStack := backStack[..|backStack| - 1];
    }

    method GoForward()
      modifies this
      ensures History() == MovedForward(old(History()))
    {
      if forwardStack == [] { return; }
      if currentDocumentId != "" {
        backStack := backStack + [currentDocumentId];
      }
      currentDocumentId := forwardStack[|forwardStack| - 1];
      forwardStack := forwardStack[..|forwardStack| - 1];
    }

    method ClearHistory()
      modifies this
      ensures History() == Stepped(old(History()), Clear)
    {
      backStack := [];
      forwardStack := [];
    }
  }
}
