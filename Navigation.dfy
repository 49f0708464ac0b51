/**
 * The controller's back/forward/up history as a value: the visited paths, the
 * index of the one on display, and the enabled state of the back and forward
 * buttons. The window controller's methods are proved to move their fields
 * exactly as these functions move a `Nav`.
 */
module Navigation {
  import opened Paths

  datatype Nav = Nav(history: seq<Path>, index: int, backEnabled: bool, forwardEnabled: bool)

  /** The state before the first navigation: empty history at index -1, both buttons off. */
  const Initial: Nav := Nav([], -1, false, false)

  /**
   * The invariant every reachable state keeps: the index is -1 on the empty
   * history and a valid position otherwise, back is enabled exactly when there
   * is an earlier entry and forward exactly when there is a later one.
   */
  ghost predicate Valid(n: Nav) {
    && (if n.history == [] then n.index == -1 else 0 <= n.index < |n.history|)
    && n.backEnabled == (n.index > 0)
    && n.forwardEnabled == (n.index < |n.history| - 1)
  }

  /** Some location is on display. */
  ghost predicate Started(n: Nav) {
    Valid(n) && n.history != []
  }

  function Current(n: Nav): (p: Path)
    requires Started(n)
  {
    n.history[n.index]
  }

  /**
   * `navigateToDirectory`: drop every entry after the current one, append `url`
   * and move to it; back is enabled when something precedes it, forward is off.
   */
  function Navigate(n: Nav, url: Path): (r: Nav)
    requires Valid(n)
    ensures Started(r)
    ensures r.history == n.history[..n.index + 1] + [url]
    ensures r.index == |r.history| - 1 == n.index + 1
    ensures Current(r) == url
    ensures !r.forwardEnabled && r.backEnabled == (n.index >= 0)
  {
    var kept := if n.index < |n.history| - 1 then n.history[..n.index + 1] else n.history;
    var history := kept + [url];
    Nav(history, |history| - 1, |history| - 1 > 0, false)
  }

  /** `goBack`: one step towards the start of the history, nothing at index 0. */
  function Back(n: Nav): (r: Nav)
    requires Valid(n)
    ensures Valid(r)
    ensures r.history == n.history
    ensures n.index > 0 ==> r.index == n.index - 1
    ensures n.index <= 0 ==> r == n
  {
    if n.index > 0 then Nav(n.history, n.index - 1, n.index - 1 > 0, true) else n
  }

  /** `goForward`: one step towards the end of the history, nothing at the last index. */
  function Forward(n: Nav): (r: Nav)
    requires Valid(n)
    ensures Valid(r)
    ensures r.history == n.history
    ensures n.index < |n.history| - 1 ==> r.index == n.index + 1
    ensures n.index == |n.history| - 1 ==> r == n
  {
    if n.index < |n.history| - 1 then
      Nav(n.history, n.index + 1, n.index + 1 > 0, n.index + 1 < |n.history| - 1)
    else n
  }

  /**
   * `goUp`: a new navigation to the parent of the current location, or
   * nothing when the parent is the location itself (at the root).
   */
  function Up(n: Nav): (r: Nav)
    requires Started(n)
    ensures Started(r)
    ensures Parent(Current(n)) != Current(n) ==> r == Navigate(n, Parent(Current(n)))
    ensures Parent(Current(n)) == Current(n) ==> r == n
  {
    var current := n.history[n.index];
    var parent := Parent(current);
    if parent != current then Navigate(n, parent) else n
  }

  // ---------------------------------------------------------------------------
  // Laws

  /** The pruning law on its example: from [A, B, C] at index 1, going to D gives [A, B, D] at index 2. */
  lemma PruningExample(a: Path, b: Path, c: Path, d: Path)
    ensures Valid(Nav([a, b, c], 1, true, true))
    ensures Navigate(Nav([a, b, c], 1, true, true), d) == Nav([a, b, d], 2, true, false)
  {
    assert [a, b, c][..2] == [a, b];
  }

  /** Going back from the end of [A, B, C] and then to D discards C. */
  lemma BackThenNavigateDiscardsForward(a: Path, b: Path, c: Path, d: Path)
    ensures Navigate(Back(Nav([a, b, c], 2, true, false)), d) == Nav([a, b, d], 2, true, false)
  {
    assert [a, b, c][..2] == [a, b];
  }

  /** Forward undoes Back. */
  lemma ForwardUndoesBack(n: Nav)
    requires Valid(n) && n.index > 0
    ensures Forward(Back(n)) == n
  {
  }

  /** Back undoes Forward. */
  lemma BackUndoesForward(n: Nav)
    requires Valid(n) && n.index < |n.history| - 1
    ensures Back(Forward(n)) == n
  {
  }

  /** `goUp` does nothing exactly at the root. */
  lemma UpIsNoOpExactlyAtRoot(n: Nav)
    requires Started(n)
    ensures Up(n) == n <==> Current(n) == Root
  {
    if Current(n) != Root {
      assert Up(n).index == n.index + 1;
    }
  }

  /** Going up from `dir/x` shows `dir`, with back enabled and forward disabled. */
  lemma UpAfterNavigate(n: Nav, dir: Path, x: Name)
    requires Valid(n)
    ensures var r := Up(Navigate(n, dir + [x]));
      Current(r) == dir && r.backEnabled && !r.forwardEnabled
      && r.history == n.history[..n.index + 1] + [dir + [x], dir]
  {
    assert Parent(dir + [x]) == dir;
  }

  // ---------------------------------------------------------------------------
  // Runs of user actions

  datatype Action = NavigateTo(url: Path) | GoBack | GoForward | GoUp

  /** The state after a run of actions from a started state. */
  function Run(n: Nav, actions: seq<Action>): (r: Nav)
    requires Started(n)
    ensures Started(r)
    decreases |actions|
  {
    if actions == [] then n
    else
      var next := match actions[0]
        case NavigateTo(u) => Navigate(n, u)
        case GoBack => Back(n)
        case GoForward => Forward(n)
        case GoUp => Up(n);
      Run(next, actions[1..])
  }

  /**
   * From the controller's initial navigation onwards, the index stays within
   * the history and both buttons reflect it, after any run of actions.
   */
  lemma ReachableStatesAreValid(home: Path, actions: seq<Action>)
    ensures var r := Run(Navigate(Initial, home), actions);
      0 <= r.index < |r.history|
      && r.backEnabled == (r.index > 0)
      && r.forwardEnabled == (r.index < |r.history| - 1)
  {
  }

  /** Back and forward only move the index: a run of them keeps the history. */
  lemma {:induction false} BackForwardKeepHistory(n: Nav, actions: seq<Action>)
    requires Started(n)
    requires forall i :: 0 <= i < |actions| ==> actions[i] == GoBack || actions[i] == GoForward
    ensures Run(n, actions).history == n.history
    decreases |actions|
  {
    if actions != [] {
      var next := if actions[0] == GoBack then Back(n) else Forward(n);
      assert Run(n, actions) == Run(next, actions[1..]);
      BackForwardKeepHistory(next, actions[1..]);
    }
  }

  /** One navigation to each of `urls`, in order. */
  function NavigationsTo(urls: seq<Path>): (r: seq<Action>)
    ensures |r| == |urls|
    ensures forall i :: 0 <= i < |urls| ==> r[i] == NavigateTo(urls[i])
    decreases |urls|
  {
    if urls == [] then [] else [NavigateTo(urls[0])] + NavigationsTo(urls[1..])
  }

  /** A run of navigations starts with the navigation to the first location. */
  lemma RunNavigationsStep(n: Nav, urls: seq<Path>)
    requires Started(n) && urls != []
    ensures Run(n, NavigationsTo(urls)) == Run(Navigate(n, urls[0]), NavigationsTo(urls[1..]))
  {
    var actions := NavigationsTo(urls);
    assert actions[0] == NavigateTo(urls[0]) && actions[1..] == NavigationsTo(urls[1..]);
  }

  lemma HistoryRegrouped(kept: seq<Path>, urls: seq<Path>)
    requires urls != []
    ensures kept + [urls[0]] + urls[1..] == kept + urls
  {
    assert urls == [urls[0]] + urls[1..];
  }

  /**
   * A run of navigations to new locations keeps the history up to the current
   * entry and then holds exactly those locations, the last one on display.
   */
  lemma {:induction false} NavigationsAppendInOrder(n: Nav, urls: seq<Path>)
    requires Started(n) && urls != []
    ensures var r := Run(n, NavigationsTo(urls));
      r.history == n.history[..n.index + 1] + urls && r.index == n.index + |urls|
    decreases |urls|
  {
    var next := Navigate(n, urls[0]);
    RunNavigationsStep(n, urls);
    if |urls| > 1 {
      NavigationsAppendInOrder(next, urls[1..]);
      assert next.history[..next.index + 1] == next.history;
      HistoryRegrouped(n.history[..n.index + 1], urls);
    } else {
      assert urls == [urls[0]];
    }
  }
}
